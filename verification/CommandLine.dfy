/** The X server's command line: options are shifted and appended in an array of fixed room. */
module CommandLine {
  import opened Options

  predicate IsDigit(c: char) {
    '0' <= c <= '9'
  }

  /** "vt" and one or two digits. */
  predicate IsVt(arg: string) {
    && 3 <= |arg| <= 4
    && arg[..2] == "vt"
    && IsDigit(arg[2])
    && (|arg| == 4 ==> IsDigit(arg[3]))
  }

  predicate IsQuery(arg: string) {
    arg == "-query" || arg == "-indirect"
  }

  ghost predicate GivesVt(args: seq<string>) {
    exists arg | arg in args :: IsVt(arg)
  }

  ghost predicate GivesQuery(args: seq<string>) {
    exists arg | arg in args :: IsQuery(arg)
  }

  datatype Server = Server(
    displayName: string,
    authFile: Option<string>,
    chosenHost: Option<string>,
    disableTcp: bool)

  function AuthArgs(s: Server): seq<string> {
    if s.authFile.Some? then ["-auth", s.authFile.value] else []
  }

  function QueryArgs(s: Server): seq<string> {
    if s.chosenHost.Some? then ["-terminate", "-query", s.chosenHost.value] else []
  }

  ghost function TcpArgs(s: Server, args: seq<string>): seq<string> {
    if s.disableTcp && s.chosenHost.None? && !GivesQuery(args) then ["-nolisten", "tcp"] else []
  }

  ghost function VtArgs(vt: Option<string>, args: seq<string>): seq<string> {
    if vt.Some? && !GivesVt(args) then [vt.value] else []
  }

  function Command(args: seq<string>, displayName: string): seq<string>
    requires args != []
  {
    [args[0], displayName] + args[1..]
  }

  /** The command, the display name, the command's own arguments, and the options added behind them. */
  ghost function Resolved(s: Server, vt: Option<string>, args: seq<string>): seq<string>
    requires args != []
  {
    Command(args, s.displayName) + AuthArgs(s) + QueryArgs(s) + TcpArgs(s, args) + VtArgs(vt, args)
  }

  lemma VtIs(c: char, d: char)
    ensures IsVt("vt" + [c]) <==> '0' <= c <= '9'
    ensures IsVt("vt" + [c, d]) <==> '0' <= c <= '9' && '0' <= d <= '9'
  {
  }

  /** The options behind the command's own arguments, each given exactly when the server asks for it. */
  lemma OptionsAre(s: Server, vt: Option<string>, args: seq<string>)
    requires args != []
    ensures var asksFor := if exists arg | arg in args :: arg == "-query" || arg == "-indirect" then true else false;
            Resolved(s, vt, args)
            == [args[0], s.displayName] + args[1..]
               + (if s.authFile.Some? then ["-auth", s.authFile.value] else [])
               + (if s.chosenHost.Some? then ["-terminate", "-query", s.chosenHost.value] else [])
               + (if s.disableTcp && s.chosenHost.None? && !asksFor then ["-nolisten", "tcp"] else [])
               + (if vt.Some? && !(exists arg | arg in args :: IsVt(arg)) then [vt.value] else [])
  {
    assert GivesQuery(args) <==> exists arg | arg in args :: arg == "-query" || arg == "-indirect";
  }

  /** With the terminator the arguments fill at most eight slots more than the command had. */
  lemma RoomLeft(s: Server, vt: Option<string>, args: seq<string>)
    requires args != []
    ensures |Resolved(s, vt, args)| + 1 <= |args| + 8
    ensures |Resolved(s, vt, args)| + 1 == |args| + 8 <==>
            s.authFile.Some? && s.chosenHost.Some? && vt.Some? && !GivesVt(args)
  {
  }

  /** A terminal option is given by exactly one side: the server's is added just when the command gives none. */
  lemma OneVt(s: Server, vt: string, args: seq<string>)
    requires args != [] && IsVt(vt)
    requires !IsVt(s.displayName) && (s.authFile.Some? ==> !IsVt(s.authFile.value))
             && (s.chosenHost.Some? ==> !IsVt(s.chosenHost.value))
    ensures var r := Resolved(s, Some(vt), args);
            GivesVt(r) && (forall i | |args| + 1 <= i < |r| :: IsVt(r[i]) <==> i == |r| - 1 && !GivesVt(args))
  {
    var r := Resolved(s, Some(vt), args);
    var added := AuthArgs(s) + QueryArgs(s) + TcpArgs(s, args);
    assert r == [args[0], s.displayName] + args[1..] + added + VtArgs(Some(vt), args);
    assert forall i | 0 <= i < |added| :: !IsVt(added[i]);
    if GivesVt(args) {
      var arg :| arg in args && IsVt(arg);
      assert args == [args[0]] + args[1..];
      assert arg in r;
    } else {
      assert r[|r| - 1] == vt;
    }
  }

  // ---------- The operation ----------

  /** A vector's slots: the arguments, or none past them. */
  type Vector = array<Option<string>>

  predicate Holds(v: seq<Option<string>>, args: seq<string>) {
    |v| == |args| && forall i | 0 <= i < |v| :: v[i] == Some(args[i])
  }

  method ScanArgs(args: seq<string>) returns (gotVt: bool, gotQuery: bool)
    ensures gotVt <==> GivesVt(args)
    ensures gotQuery <==> GivesQuery(args)
  {
    gotVt, gotQuery := false, false;
    var len := 0;
    while len < |args|
      invariant 0 <= len <= |args|
      invariant gotVt <==> GivesVt(args[..len])
      invariant gotQuery <==> GivesQuery(args[..len])
    {
      assert args[..len + 1] == args[..len] + [args[len]];
      assert args[len] in args[..len + 1];
      if IsVt(args[len]) { gotVt := true; }
      if IsQuery(args[len]) { gotQuery := true; }
      len := len + 1;
    }
    assert args[..len] == args;
  }

  /** Moves all but the first of len arguments one slot down the vector, from the last on. */
  method ShiftArgs(argv: Vector, len: nat)
    requires 1 <= len < argv.Length
    modifies argv
    ensures argv[0] == old(argv[0])
    ensures forall k | 2 <= k <= len :: argv[k] == old(argv[k - 1])
  {
    var i := len - 1;
    while i >= 1
      invariant 0 <= i < len
      invariant forall k | 0 <= k <= i :: argv[k] == old(argv[k])
      invariant forall k | i + 1 < k <= len :: argv[k] == old(argv[k - 1])
    {
      argv[i + 1] := argv[i];
      i := i - 1;
    }
  }

  /** A vector with ten slots to spare; the display name comes before any other argument. */
  method PlaceCommand(args: seq<string>, displayName: string) returns (argv: Vector)
    requires args != []
    ensures fresh(argv) && argv.Length == |args| + 10
    ensures Holds(argv[..|args| + 1], Command(args, displayName))
  {
    argv := new Option<string>[|args| + 10](i => if 0 <= i < |args| then Some(args[i]) else None);
    ShiftArgs(argv, |args|);
    argv[1] := Some(displayName);
  }

  /** Writes more arguments behind the first len slots. */
  method AppendArgs(argv: Vector, len: nat, ghost before: seq<string>, more: seq<string>) returns (end: nat)
    requires len + |more| <= argv.Length && Holds(argv[..len], before)
    modifies argv
    ensures end == len + |more| && Holds(argv[..end], before + more)
  {
    end := len;
    var i := 0;
    while i < |more|
      invariant 0 <= i <= |more| && end == len + i
      invariant Holds(argv[..end], before + more[..i])
    {
      argv[end] := Some(more[i]);
      end := end + 1;
      i := i + 1;
      assert before + more[..i] == before + more[..i - 1] + [more[i - 1]];
    }
    assert more[..i] == more;
  }

  /** The count returned includes the terminator. */
  method ResolveCommandLine(s: Server, vt: Option<string>, args: seq<string>) returns (argv: Vector, argc: nat)
    requires args != []
    ensures fresh(argv) && argv.Length == |args| + 10 && argc <= |args| + 8
    ensures argc == |Resolved(s, vt, args)| + 1
    ensures Holds(argv[..argc - 1], Resolved(s, vt, args)) && argv[argc - 1] == None
  {
    var gotVt, gotQuery := ScanArgs(args);
    argv := PlaceCommand(args, s.displayName);
    var len := |args| + 1;
    ghost var done := Command(args, s.displayName);
    RoomLeft(s, vt, args);
    len := AppendArgs(argv, len, done, AuthArgs(s));
    done := done + AuthArgs(s);
    len := AppendArgs(argv, len, done, QueryArgs(s));
    done := done + QueryArgs(s);
    if s.chosenHost.Some? { gotQuery := true; }
    if s.disableTcp && !gotQuery {
      len := AppendArgs(argv, len, done, ["-nolisten", "tcp"]);
    }
    done := done + TcpArgs(s, args);
    assert Holds(argv[..len], done);
    if vt.Some? && !gotVt {
      len := AppendArgs(argv, len, done, [vt.value]);
    }
    argv[len] := None;
    argc := len + 1;
  }
}
