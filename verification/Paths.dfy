/** The textual names of a thread's segments (`thread_candidate_paths` in `read.rs`): no two coincide. */
module Paths {
  import opened ThreadStates
  import opened Reader
  import opened Servers
  import RunScanner

  /** Safe names are the texts of 1 to 128 of the characters that may make up a credential. */
  lemma SafeIff(value: string)
    ensures SafeSegment(value) <==> 1 <= |value| < 129 && RunScanner.RunLength(value) == |value|
  {
    if forall c <- value :: RunScanner.IsToken(c) {
      assert forall k :: 0 <= k < |value| ==> value[k] in value;
      RunScanner.RunLengthIs(value, |value|);
    }
  }

  function Number(index: nat): string
    requires index <= MaxRecoveredSegments
  {
    if index < 10 then ['0' + index as char] else "10"
  }

  /** What follows identity and thread in the name of a segment: the base, then the recovered ones. */
  function Suffix(index: nat): string
    requires index <= MaxRecoveredSegments
  {
    if index == 0 then ".jsonl"
    else if index == 1 then ".recovered.jsonl"
    else ".recovered-" + Number(index) + ".jsonl"
  }

  /** `thread_candidate_paths` and `recovered_thread_path` */
  function Name(path: Path): string
    requires path.segment <= MaxRecoveredSegments
  {
    path.key.identity + "/" + (path.key.thread + Suffix(path.segment))
  }

  /** The names on disk: the base file, the first recovered one, and the tenth. */
  lemma NamesOnDisk(identity: string, thread: string)
    ensures Name(Path(Key(identity, thread), 0)) == identity + "/" + thread + ".jsonl"
    ensures Name(Path(Key(identity, thread), 1)) == identity + "/" + thread + ".recovered.jsonl"
    ensures Name(Path(Key(identity, thread), 2)) == identity + "/" + thread + ".recovered-2.jsonl"
    ensures Name(Path(Key(identity, thread), 10)) == identity + "/" + thread + ".recovered-10.jsonl"
  {
    assert ".recovered-" + "10" + ".jsonl" == ".recovered-10.jsonl"
      && ".recovered-" + "2" + ".jsonl" == ".recovered-2.jsonl";
    assert Number(2) == "2";
    assert identity + "/" + thread + ".jsonl" == identity + "/" + (thread + ".jsonl");
    assert identity + "/" + thread + ".recovered.jsonl" == identity + "/" + (thread + ".recovered.jsonl");
    assert identity + "/" + thread + ".recovered-2.jsonl" == identity + "/" + (thread + ".recovered-2.jsonl");
    assert identity + "/" + thread + ".recovered-10.jsonl" == identity + "/" + (thread + ".recovered-10.jsonl");
  }

  lemma SuffixesDiffer(i: nat, j: nat)
    requires i <= MaxRecoveredSegments && j <= MaxRecoveredSegments && Suffix(i) == Suffix(j)
    ensures i == j
  {
    assert |".recovered-"| == 11 && |".recovered.jsonl"| == 16 && |".jsonl"| == 6;
    if i >= 2 && j >= 2 {
      assert Suffix(i)[11..][..|Number(i)|] == Number(i) && Suffix(j)[11..][..|Number(j)|] == Number(j);
      assert |Number(i)| == |Number(j)|;
    }
  }

  /** A text is split uniquely at the first mark when the part in front has none. */
  lemma SplitIsUnique(a: string, b: string, mark: char, restA: string, restB: string)
    requires mark !in a && mark !in b && a + [mark] + restA == b + [mark] + restB
    ensures a == b && restA == restB
  {
    var text, n, m := a + [mark] + restA, |a|, |b|;
    assert text[n] == mark && text[m] == mark by { assert text == b + [mark] + restB; }
    assert forall k :: 0 <= k < n ==> text[k] == a[k] && a[k] in a;
    assert forall k :: 0 <= k < m ==> text[k] == b[k] && b[k] in b;
    assert n == m;
    assert text[..n] == a && text[..m] == b;
    assert text[n + 1..] == restA && text[m + 1..] == restB;
  }

  lemma SuffixStartsWithDot(index: nat)
    requires index <= MaxRecoveredSegments
    ensures Suffix(index) == ['.'] + Suffix(index)[1..]
  {
  }

  /** Safe identity and thread names never make two segments share a file, so files are keyed by `Path`. */
  lemma NamesAreDistinct(a: Path, b: Path)
    requires SafeSegment(a.key.identity) && SafeSegment(a.key.thread) && a.segment <= MaxRecoveredSegments
    requires SafeSegment(b.key.identity) && SafeSegment(b.key.thread) && b.segment <= MaxRecoveredSegments
    ensures Name(a) == Name(b) <==> a == b
  {
    if Name(a) == Name(b) {
      hide Suffix;
      SplitIsUnique(a.key.identity, b.key.identity, '/', a.key.thread + Suffix(a.segment),
        b.key.thread + Suffix(b.segment));
      SuffixStartsWithDot(a.segment);
      SuffixStartsWithDot(b.segment);
      var restA, restB := Suffix(a.segment)[1..], Suffix(b.segment)[1..];
      assert a.key.thread + Suffix(a.segment) == a.key.thread + ['.'] + restA;
      assert b.key.thread + Suffix(b.segment) == b.key.thread + ['.'] + restB;
      SplitIsUnique(a.key.thread, b.key.thread, '.', restA, restB);
      SuffixesDiffer(a.segment, b.segment);
    }
  }
}
