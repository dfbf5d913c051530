/** Option words and operands among a command's arguments, and the check on paths. */
module CommandOptions {

  /** The arguments that are not options. */
  function Operands(args: seq<string>, options: set<string>): (r: seq<string>)
    ensures |r| <= |args|
  {
    if args == [] then []
    else if args[0] in options then Operands(args[1..], options)
    else [args[0]] + Operands(args[1..], options)
  }

  lemma {:induction false} OperandsSplit(a: seq<string>, b: seq<string>, options: set<string>)
    ensures Operands(a + b, options) == Operands(a, options) + Operands(b, options)
  {
    if a == [] {
      assert a + b == b;
    } else {
      assert (a + b)[1..] == a[1..] + b;
      OperandsSplit(a[1..], b, options);
    }
  }

  /** What one more argument adds, and that the ones after it can only add more. */
  lemma OperandsNext(args: seq<string>, i: nat, options: set<string>)
    requires i < |args|
    ensures args[..i + 1] == args[..i] + [args[i]]
    ensures Operands(args[..i + 1], options)
         == Operands(args[..i], options) + (if args[i] in options then [] else [args[i]])
    ensures |Operands(args[..i + 1], options)| <= |Operands(args, options)|
  {
    assert args[..i + 1] == args[..i] + [args[i]];
    OperandsSplit(args[..i], [args[i]], options);
    OperandsSplit(args[..i + 1], args[i + 1..], options);
    assert args == args[..i + 1] + args[i + 1..];
  }

  /** Position `k` holds the only argument that is not an option. */
  predicate OnlyOperand(args: seq<string>, options: set<string>, k: int) {
    0 <= k < |args| && forall j :: 0 <= j < |args| ==> (args[j] in options <==> j != k)
  }

  /** Two arguments are not options. */
  predicate TwoOperands(args: seq<string>, options: set<string>) {
    exists i, j :: 0 <= i < j < |args| && args[i] !in options && args[j] !in options
  }

  lemma {:induction false} NoOperand(args: seq<string>, options: set<string>)
    ensures Operands(args, options) == [] <==> forall j :: 0 <= j < |args| ==> args[j] in options
  {
    if args != [] {
      NoOperand(args[1..], options);
      assert forall j :: 0 < j < |args| ==> args[j] == args[1..][j - 1];
    }
  }

  lemma {:induction false} OneOperand(args: seq<string>, options: set<string>, k: nat)
    requires OnlyOperand(args, options, k)
    ensures Operands(args, options) == [args[k]]
  {
    if k == 0 {
      NoOperand(args[1..], options);
    } else {
      OneOperand(args[1..], options, k - 1);
    }
  }

  lemma {:induction false} OneOperandThere(args: seq<string>, options: set<string>) returns (k: nat)
    requires |Operands(args, options)| == 1
    ensures OnlyOperand(args, options, k)
  {
    if args[0] in options {
      k := OneOperandThere(args[1..], options);
      k := k + 1;
      assert forall j :: 0 < j < |args| ==> args[j] == args[1..][j - 1];
    } else {
      k := 0;
      NoOperand(args[1..], options);
      assert forall j :: 0 < j < |args| ==> args[j] == args[1..][j - 1];
    }
  }

  /** An argument list has no operand, exactly one, or two of them. */
  lemma {:induction false} CountOperands(args: seq<string>, options: set<string>)
    ensures |Operands(args, options)| > 1 <==> TwoOperands(args, options)
    ensures |Operands(args, options)| == 1 <==> exists k :: OnlyOperand(args, options, k)
  {
    NoOperand(args, options);
    if |Operands(args, options)| == 1 {
      var k := OneOperandThere(args, options);
    } else if |Operands(args, options)| > 1 {
      ManyOperands(args, options);
    }
    if k :| OnlyOperand(args, options, k) {
      OneOperand(args, options, k);
    }
  }

  lemma {:induction false} ManyOperands(args: seq<string>, options: set<string>)
    requires |Operands(args, options)| > 1
    ensures TwoOperands(args, options)
  {
    if args[0] in options {
      ManyOperands(args[1..], options);
      var i, j :| 0 <= i < j < |args[1..]| && args[1..][i] !in options && args[1..][j] !in options;
      assert args[i + 1] !in options && args[j + 1] !in options;
    } else {
      NoOperand(args[1..], options);
      var j :| 0 <= j < |args[1..]| && args[1..][j] !in options;
      assert args[0] !in options && args[j + 1] !in options;
    }
  }

  /** The path check refuses any ".." anywhere in the text. */
  predicate IsPathSafe(path: string) {
    forall i :: 0 <= i < |path| - 1 ==> !(path[i] == '.' && path[i + 1] == '.')
  }

  /** A path passes the check exactly when it cannot be split around two dots. */
  lemma PathSafeExactly(path: string)
    ensures IsPathSafe(path) <==> forall before: string, after: string :: path != before + ".." + after
  {
    if !IsPathSafe(path) {
      var i :| 0 <= i < |path| - 1 && path[i] == '.' && path[i + 1] == '.';
      assert path == path[..i] + ".." + path[i + 2..];
    }
    forall before: string, after: string | path == before + ".." + after
      ensures !IsPathSafe(path)
    {
      assert path[|before|] == '.' && path[|before| + 1] == '.';
    }
  }
}
