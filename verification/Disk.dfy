/** The files a session works on: names, and the contents behind them. A number stands for a file as an
    open descriptor knows it, so that it can have several names, or outlive the one it was opened by. */
module Disks {

  type Bytes = string

  datatype Disk = Disk(names: map<string, nat>, files: map<nat, Bytes>, next: nat)

  ghost predicate Sound(d: Disk) {
    && (forall name :: name in d.names ==> d.names[name] in d.files)
    && (forall file :: file in d.files ==> file < d.next)
  }

  /** What a descriptor for this file reads. */
  function Content(d: Disk, file: nat): Bytes {
    if file in d.files then d.files[file] else ""
  }

  /** The file `open` with O_CREAT | O_TRUNC gives: the one of that name, or a new one. */
  function Target(d: Disk, name: string): nat {
    if name in d.names then d.names[name] else d.next
  }

  function Create(d: Disk, name: string): Disk {
    var file := Target(d, name);
    Disk(d.names[name := file], d.files[file := ""], if name in d.names then d.next else d.next + 1)
  }

  function Append(d: Disk, file: nat, bytes: Bytes): Disk {
    d.(files := d.files[file := Content(d, file) + bytes])
  }

  /** Names that no longer lead anywhere. An open file keeps its content. */
  function Unlink(d: Disk, removed: set<string>): Disk {
    d.(names := d.names - removed)
  }

  /** This file has the content it had. */
  ghost predicate SameFile(d: Disk, d': Disk, file: nat) {
    (file in d'.files <==> file in d.files) && Content(d', file) == Content(d, file)
  }

  /** This name leads where it led. */
  ghost predicate SameName(d: Disk, d': Disk, name: string) {
    (name in d'.names <==> name in d.names) && (name in d.names ==> d'.names[name] == d.names[name])
  }
}
