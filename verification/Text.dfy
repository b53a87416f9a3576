/**
 Log files as text: what a complete line is, how a torn tail is repaired, and how the lines of a
 text are enumerated (`str::lines`, including its treatment of a carriage return before a line feed).
 */
module Text {

  /** `completed_contents` */
  predicate Complete(s: string) {
    s == "" || s[|s| - 1] == '\n'
  }

  /** One past the last line feed: `rfind('\n').map_or(0, |index| index + 1)`. */
  function ValidLen(s: string): (n: nat)
    ensures n <= |s|
  {
    if s == "" || s[|s| - 1] == '\n' then |s| else ValidLen(s[..|s| - 1])
  }

  /** The text that survives tail repair. */
  function Repair(s: string): string {
    s[..ValidLen(s)]
  }

  function FirstNewline(s: string): (n: nat)
    ensures n <= |s|
    ensures forall k :: 0 <= k < n ==> s[k] != '\n'
    ensures n < |s| ==> s[n] == '\n'
  {
    if s == "" || s[0] == '\n' then 0
    else
      var m := FirstNewline(s[1..]);
      assert forall k :: 0 <= k < m ==> s[1..][k] == s[k + 1];
      1 + m
  }

  function StripCr(line: string): string {
    if line != "" && line[|line| - 1] == '\r' then line[..|line| - 1] else line
  }

  /** `str::lines` */
  function Lines(s: string): seq<string>
    decreases |s|
  {
    if s == "" then []
    else
      var n := FirstNewline(s);
      if n == |s| then [s] else [StripCr(s[..n])] + Lines(s[n + 1..])
  }

  /** A line the writer can emit: no line feed inside and no carriage return anywhere. */
  predicate PlainLine(line: string) {
    '\n' !in line && '\r' !in line
  }

  lemma {:induction false} FirstNewlineUnique(s: string, n: nat)
    requires n < |s| && s[n] == '\n' && forall k :: 0 <= k < n ==> s[k] != '\n'
    ensures FirstNewline(s) == n
  {
    var m := FirstNewline(s);
    assert m < |s| ==> s[m] == '\n';
  }

  /** The repaired text is complete, a prefix, and no complete prefix is longer. */
  lemma {:induction false} RepairIsLongestCompletePrefix(s: string, p: string)
    ensures Complete(Repair(s)) && Repair(s) <= s
    ensures Complete(p) && p <= s ==> p <= Repair(s)
    ensures '\n' !in s[ValidLen(s)..]
  {
    if s != "" && s[|s| - 1] != '\n' {
      var t := s[..|s| - 1];
      assert s[..ValidLen(t)] == t[..ValidLen(t)];
      RepairIsLongestCompletePrefix(t, if p <= t then p else "");
      assert |p| == |s| && p <= s ==> p == s;
      forall k | ValidLen(s) <= k < |s| ensures s[k] != '\n' {
        if k < |s| - 1 { assert t[ValidLen(t)..][k - ValidLen(t)] == t[k]; }
      }
    }
  }

  /** Repairing twice repairs nothing more; a text is repaired to itself exactly when it is complete. */
  lemma {:induction false} RepairIdempotent(s: string)
    ensures Repair(Repair(s)) == Repair(s)
    ensures Repair(s) == s <==> Complete(s)
  {
    RepairIsLongestCompletePrefix(s, s);
  }

  /** Text already complete is kept whole, whatever is appended behind it. */
  lemma {:induction false} RepairAppend(a: string, b: string)
    ensures Repair(a) <= Repair(a + b)
    ensures Complete(a) ==> Repair(a + b) == a + Repair(b)
  {
    RepairIsLongestCompletePrefix(a, "");
    RepairIsLongestCompletePrefix(a + b, Repair(a));
    if Complete(a) {
      RepairIsLongestCompletePrefix(b, "");
      var r := Repair(a + b);
      RepairIsLongestCompletePrefix(a + b, a + Repair(b));
      assert |a| <= |r|;
      assert r == a + r[|a|..];
      assert (a + b)[|a|..] == b;
      assert r[|a|..] <= b by { assert r[|a|..] == (a + b)[|a|..][..|r| - |a|]; }
      RepairIsLongestCompletePrefix(b, r[|a|..]);
    }
  }

  /** Lines of a complete text followed by more text. */
  lemma {:induction false} LinesAppend(a: string, b: string)
    requires Complete(a)
    ensures Lines(a + b) == Lines(a) + Lines(b)
    decreases |a|
  {
    if a == "" {
      assert a + b == b;
    } else {
      var n := FirstNewline(a);
      assert a[|a| - 1] == '\n';
      assert (a + b)[..n] == a[..n];
      FirstNewlineUnique(a + b, n);
      assert (a + b)[n + 1..] == a[n + 1..] + b;
      LinesAppend(a[n + 1..], b);
    }
  }

  lemma CompleteAppend(a: string, b: string)
    requires Complete(a) && Complete(b)
    ensures Complete(a + b)
  {
    if b != "" { assert (a + b)[|a + b| - 1] == b[|b| - 1]; } else { assert a + b == a; }
  }

  lemma {:induction false} LinesOfOne(line: string)
    requires PlainLine(line)
    ensures Lines(line + "\n") == [line]
  {
    var s := line + "\n";
    assert s[..|line|] == line;
    FirstNewlineUnique(s, |line|);
    assert s[|line| + 1..] == "";
    assert StripCr(line) == line;
  }

  /** A line ends at a line feed, with or without a carriage return in front; the last one may have no end. */
  lemma LineEnds(line: string)
    requires '\n' !in line
    ensures Lines(line + "\r\n") == [line]
    ensures line != "" ==> Lines(line) == [line]
    ensures line == "" || line[|line| - 1] != '\r' ==> Lines(line + "\n") == [line]
  {
    hide Lines, FirstNewline;
    var cr := line + "\r";
    assert cr + "\n" == line + "\r\n" && StripCr(cr) == line;
    OneLineEnds(cr);
    OneLineEnds(line);
    if line != "" { UnendedLine(line); }
  }

  lemma OneLineEnds(line: string)
    requires '\n' !in line
    ensures Lines(line + "\n") == [StripCr(line)]
  {
    hide StripCr;
    var s := line + "\n";
    assert s[..|line|] == line && s[|line| + 1..] == "";
    FirstNewlineUnique(s, |line|);
  }

  lemma UnendedLine(line: string)
    requires '\n' !in line && line != ""
    ensures Lines(line) == [line]
  {
    assert forall k :: 0 <= k < |line| ==> line[k] in line;
  }

  /** A complete text is a sequence of whole lines, so any prefix of it repairs to fewer whole lines. */
  lemma {:induction false} LinesOfPrefix(s: string, p: string)
    requires p <= s
    ensures Repair(p) <= Repair(s)
    ensures Lines(Repair(p)) <= Lines(Repair(s))
  {
    RepairIsLongestCompletePrefix(p, "");
    RepairIsLongestCompletePrefix(s, Repair(p));
    var r := Repair(s);
    assert r == Repair(p) + r[|Repair(p)|..];
    LinesAppend(Repair(p), r[|Repair(p)|..]);
  }
}
