/** The channel between a child and the root process over many questions: one answer at a time is read,
    and what a buffer could not take stays in the channel. */
module Interprocess {
  import opened Text
  import opened CommandParser
  import opened RootCommands

  datatype Ask = Ask(kind: Kind, id: nat)

  /** The parent's reply that carries a name. */
  function ReplyOf(name: string): string {
    Fits(name, MAX_ARG_LEN) + "\0"
  }

  function NameOf(ask: Ask, users: Names, groups: Names): string {
    var found := if ask.kind.User? then users(ask.id) else groups(ask.id);
    match found case Some(name) => name case None => "unknown"
  }

  /** What the caller gets when the reply arrives behind what was left in the channel. */
  function Answer(pending: string, reply: string): string {
    Received(pending + reply)
  }

  /** What the read leaves in the channel. */
  function Left(pending: string, reply: string): string {
    var all := pending + reply;
    if |all| < IPC_BUFFER then "" else all[IPC_BUFFER - 1..]
  }

  function Answers(pending: string, names: seq<string>): (r: seq<string>)
    ensures |r| == |names|
    decreases names
  {
    if names == [] then []
    else [Answer(pending, ReplyOf(names[0]))] + Answers(Left(pending, ReplyOf(names[0])), names[1..])
  }

  function LeftAfter(pending: string, names: seq<string>): string
    decreases names
  {
    if names == [] then pending else LeftAfter(Left(pending, ReplyOf(names[0])), names[1..])
  }

  function NamesOf(asks: seq<Ask>, users: Names, groups: Names): (r: seq<string>)
    ensures |r| == |asks| && forall i :: 0 <= i < |asks| ==> r[i] == NameOf(asks[i], users, groups)
  {
    if asks == [] then [] else [NameOf(asks[0], users, groups)] + NamesOf(asks[1..], users, groups)
  }

  /** The child's end. */
  class Channel {
    var pending: string

    constructor ()
      ensures pending == ""
    {
      pending := "";
    }

    /** Prints the request into the buffer, sends it, and has the buffer overwritten by what is read. */
    method AskRoot(ask: Ask, users: Names, groups: Names) returns (buffer: string)
      requires ask.id < TWO_32
      modifies this
      ensures buffer == Answer(old(pending), ReplyOf(NameOf(ask, users, groups)))
      ensures pending == Left(old(pending), ReplyOf(NameOf(ask, users, groups)))
    {
      hide Parse, ScanUnsigned, Decimal;
      buffer := Request(ask.kind, ask.id);
      ParseRequest(ask.kind, ask.id);
      ScanDecimal(ask.id);
      var reply := ExecuteRootCommand(buffer, users, groups);
      pending := pending + reply.value;
      buffer := Received(pending);
      pending := if |pending| < IPC_BUFFER then "" else pending[IPC_BUFFER - 1..];
    }

    method AskAll(asks: seq<Ask>, users: Names, groups: Names) returns (answers: seq<string>)
      requires forall i :: 0 <= i < |asks| ==> asks[i].id < TWO_32
      modifies this
      ensures answers == Answers(old(pending), NamesOf(asks, users, groups))
      ensures pending == LeftAfter(old(pending), NamesOf(asks, users, groups))
    {
      hide Answer, Left, ReplyOf;
      ghost var names := NamesOf(asks, users, groups);
      answers := [];
      var i := 0;
      assert names[0..] == names;
      while i < |asks|
        invariant 0 <= i <= |asks|
        invariant answers + Answers(pending, names[i..]) == Answers(old(pending), names)
        invariant LeftAfter(pending, names[i..]) == LeftAfter(old(pending), names)
      {
        var answer := AskRoot(asks[i], users, groups);
        assert names[i..][1..] == names[i + 1..];
        answers := answers + [answer];
        i := i + 1;
      }
      assert names[i..] == [];
    }
  }

  /** The names with which a reply is read whole. */
  predicate Short(name: string) {
    |name| < IPC_BUFFER - 1
  }

  lemma ShortLeavesNothing(name: string)
    ensures Left("", ReplyOf(name)) == "" <==> Short(name)
  {
    assert "" + ReplyOf(name) == ReplyOf(name);
  }

  /** Each question starts on an empty channel. */
  predicate InStep(pending: string, names: seq<string>)
    decreases names
  {
    names != [] ==> pending == "" && InStep(Left(pending, ReplyOf(names[0])), names[1..])
  }

  /** Every question starts on an empty channel exactly when all names but the last have fewer than 255
      bytes. */
  lemma {:induction false} InStepExactly(names: seq<string>)
    ensures InStep("", names) <==> forall i :: 0 <= i < |names| - 1 ==> Short(names[i])
    decreases names
  {
    hide Left, ReplyOf, Short;
    if |names| == 1 {
      assert names[1..] == [];
    } else if |names| > 1 {
      ShortLeavesNothing(names[0]);
      InStepExactly(names[1..]);
      assert forall i :: 0 <= i < |names| - 2 ==> names[1..][i] == names[i + 1];
      assert forall i :: 0 < i < |names| - 1 ==> names[i] == names[1..][i - 1];
    }
  }

  lemma NameArrives(name: string)
    requires '\0' !in name
    ensures Answer("", ReplyOf(name)) == Fits(name, IPC_BUFFER)
  {
    var text := ReplyOf(name);
    assert "" + text == text;
    var shown := Fits(name, IPC_BUFFER);
    if |name| < IPC_BUFFER - 1 {
      assert Fits(text, IPC_BUFFER) == shown + "\0";
      CStringOf(shown, "\0");
    } else {
      assert Fits(text, IPC_BUFFER) == shown + "";
      CStringOf(shown, "");
    }
  }

  /** When all names but the last have fewer than 255 bytes, every question is answered by its own name, the
      last one as far as the buffer goes. */
  lemma {:induction false} AskedNamesArrive(names: seq<string>)
    requires forall i :: 0 <= i < |names| - 1 ==> Short(names[i])
    requires forall i :: 0 <= i < |names| ==> '\0' !in names[i]
    ensures forall i :: 0 <= i < |names| ==> Answers("", names)[i] == Fits(names[i], IPC_BUFFER)
    decreases names
  {
    hide Left, ReplyOf, Short, Answer, Fits;
    if names != [] {
      NameArrives(names[0]);
      if |names| > 1 {
        ShortLeavesNothing(names[0]);
        AskedNamesArrive(names[1..]);
      }
    }
  }

  lemma {:induction false} CStringStops(s: string, t: string)
    requires '\0' in s
    ensures CString(s + t) == CString(s)
  {
    if s[0] != '\0' {
      assert (s + t)[1..] == s[1..] + t;
      CStringStops(s[1..], t);
    }
  }

  /** What is left in the channel ends in a NUL, so that it answers the next question whatever that is. */
  lemma StaleAnswer(pending: string, reply: string)
    requires pending != "" && pending[|pending| - 1] == '\0'
    ensures Answer(pending, reply) == Received(pending)
  {
    if |pending| < IPC_BUFFER - 1 {
      var all := Fits(pending + reply, IPC_BUFFER);
      assert pending <= all;
      assert all == pending + all[|pending|..];
      CStringStops(pending, all[|pending|..]);
    } else {
      assert (pending + reply)[..IPC_BUFFER - 1] == pending[..IPC_BUFFER - 1];
      if |pending| == IPC_BUFFER - 1 {
        assert Fits(pending, IPC_BUFFER) == pending[..IPC_BUFFER - 1];
        assert reply == "" ==> pending + reply == pending;
        assert Fits(pending + reply, IPC_BUFFER) == pending[..IPC_BUFFER - 1];
      }
    }
  }

  lemma LongLeavesItsEnd(name: string)
    requires !Short(name)
    ensures var left := Left("", ReplyOf(name)); left != "" && left[|left| - 1] == '\0'
  {
    assert "" + ReplyOf(name) == ReplyOf(name);
  }

  /** The question after a name is answered by its own name, whatever that is, exactly when the name before
      has fewer than 255 bytes: otherwise the rest of that one is the answer. */
  lemma NextAnswerExactly(name: string)
    ensures Short(name) <==>
      forall next :: '\0' !in next ==> Answer(Left("", ReplyOf(name)), ReplyOf(next)) == Fits(next, IPC_BUFFER)
  {
    hide ReplyOf, Answer, Left, Short;
    ShortLeavesNothing(name);
    if Short(name) {
      forall next | '\0' !in next
        ensures Answer("", ReplyOf(next)) == Fits(next, IPC_BUFFER)
      {
        NameArrives(next);
      }
    } else {
      LongLeavesItsEnd(name);
      var left := Left("", ReplyOf(name));
      StaleAnswer(left, ReplyOf("a"));
      StaleAnswer(left, ReplyOf("b"));
      assert Fits("a", IPC_BUFFER) != Fits("b", IPC_BUFFER);
    }
  }
}
