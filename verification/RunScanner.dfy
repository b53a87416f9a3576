/**
 Masking URL-safe credentials (`redact_url_safe_credentials` in `domain/activity/redaction.rs`): every
 maximal run of exactly 43 letters, digits, hyphens and underscores is replaced.
 */
module RunScanner {
  predicate IsToken(c: char) {
    'a' <= c <= 'z' || 'A' <= c <= 'Z' || '0' <= c <= '9' || c == '-' || c == '_'
  }

  const CredentialLength: nat := 43

  const Mask: string := "[REDACTED]"

  /** Length of the token run at the front. */
  function RunLength(s: string): (n: nat)
    ensures n <= |s|
    ensures forall k :: 0 <= k < n ==> IsToken(s[k])
    ensures n < |s| ==> !IsToken(s[n])
  {
    if s == "" || !IsToken(s[0]) then 0 else 1 + RunLength(s[1..])
  }

  /** Length of the text in front of the first token character. */
  function GapLength(s: string): (n: nat)
    ensures n <= |s|
    ensures forall k :: 0 <= k < n ==> !IsToken(s[k])
    ensures n < |s| ==> IsToken(s[n])
  {
    if s == "" || IsToken(s[0]) then 0 else 1 + GapLength(s[1..])
  }

  // ----- Texts as maximal runs and separators -----

  datatype Piece = Run(text: string) | Separator(c: char)

  function Pieces(s: string): seq<Piece>
    decreases |s|
  {
    if s == "" then []
    else if !IsToken(s[0]) then [Separator(s[0])] + Pieces(s[1..])
    else [Run(s[..RunLength(s)])] + Pieces(s[RunLength(s)..])
  }

  function PieceText(p: Piece): string {
    match p
    case Run(text) => text
    case Separator(c) => [c]
  }

  function TextOf(pieces: seq<Piece>): string {
    if pieces == [] then "" else PieceText(pieces[0]) + TextOf(pieces[1..])
  }

  lemma TextOfCons(p: Piece, rest: seq<Piece>)
    ensures TextOf([p] + rest) == PieceText(p) + TextOf(rest)
  {
    var all := [p] + rest;
    assert all[0] == p && all[1..] == rest;
  }

  /** The pieces make up the text. */
  lemma {:induction false} PiecesMakeText(s: string)
    ensures TextOf(Pieces(s)) == s
    decreases |s|
  {
    hide TextOf, IsToken, RunLength;
    if s == "" {
      NoPieces();
    } else if !IsToken(s[0]) {
      PiecesMakeText(s[1..]);
      TextOfCons(Separator(s[0]), Pieces(s[1..]));
      assert s == [s[0]] + s[1..];
    } else {
      var n := RunLength(s);
      PiecesMakeText(s[n..]);
      TextOfCons(Run(s[..n]), Pieces(s[n..]));
      assert s == s[..n] + s[n..];
    }
  }

  lemma NoPieces()
    ensures Pieces("") == [] && TextOf([]) == ""
  {
  }

  predicate IsCredential(p: Piece) {
    p.Run? && |p.text| == CredentialLength
  }

  /** What a credential run is replaced by: a bracketed word. */
  const MaskPieces: seq<Piece> := [Separator('['), Run("REDACTED"), Separator(']')]

  /** Every credential replaced, every other piece kept, in order. */
  function MaskAll(pieces: seq<Piece>): seq<Piece> {
    if pieces == [] then []
    else (if IsCredential(pieces[0]) then MaskPieces else [pieces[0]]) + MaskAll(pieces[1..])
  }

  /** The text with every credential replaced. */
  function Redact(s: string): string {
    TextOf(MaskAll(Pieces(s)))
  }

  /** What a run is replaced by. */
  function Kept(run: string): string {
    if |run| == CredentialLength then Mask else run
  }

  /** `redact_url_safe_credentials`: a cursor that alternates between gaps and runs. */
  method RedactUrlSafeCredentials(value: string) returns (redacted: string)
    ensures redacted == Redact(value)
  {
    hide Redact, Kept;
    redacted := "";
    var cursor := 0;
    assert value[0..] == value;
    NothingLeft();
    while cursor < |value|
      invariant cursor <= |value|
      invariant redacted + Redact(value[cursor..]) == Redact(value)
      decreases |value| - cursor
    {
      ghost var rest, before := value[cursor..], redacted;
      var offset := GapLength(value[cursor..]);
      if cursor + offset == |value| {
        OnlyGap(rest);
        redacted := redacted + value[cursor..];
        return;
      }
      var start := cursor + offset;
      var end := start + RunLength(value[start..]);
      assert value[start..] == rest[offset..] && value[end..] == rest[end - cursor..];
      Round(rest, offset, end - start);
      redacted := redacted + (value[cursor..start] + Kept(value[start..end]));
      assert value[cursor..start] == rest[..offset] && value[start..end] == rest[offset..end - cursor];
      Associate(before, value[cursor..start] + Kept(value[start..end]), Redact(value[end..]));
      cursor := end;
    }
    assert value[cursor..] == "" && redacted + "" == redacted;
  }

  lemma Associate(a: string, b: string, c: string)
    ensures a + (b + c) == a + b + c
  {
  }

  lemma OnlyGap(s: string)
    requires GapLength(s) == |s|
    ensures Redact(s) == s
  {
    SkipGap(s, |s|);
    assert s[..|s|] == s && s[|s|..] == "" && s + "" == s;
  }

  lemma SliceOfSlice(s: string, g: nat, n: nat)
    requires g + n <= |s|
    ensures s[g..][..n] == s[g..g + n] && s[g..][n..] == s[g + n..]
  {
  }

  /** A gap and the run behind it. */
  lemma Round(s: string, g: nat, n: nat)
    requires g == GapLength(s) < |s| && n == RunLength(s[g..])
    ensures 0 < n && g + n <= |s|
    ensures Redact(s) == (s[..g] + Kept(s[g..g + n])) + Redact(s[g + n..])
  {
    hide Redact, Kept, GapLength, RunLength;
    SkipGap(s, g);
    SkipRun(s[g..]);
    SliceOfSlice(s, g, n);
    Associate(s[..g], Kept(s[g..g + n]), Redact(s[g + n..]));
  }

  lemma NothingLeft()
    ensures Redact("") == ""
  {
  }

  lemma {:induction false} SkipGap(s: string, n: nat)
    requires n <= |s| && forall k :: 0 <= k < n ==> !IsToken(s[k])
    ensures Redact(s) == s[..n] + Redact(s[n..])
    decreases n
  {
    if n == 0 {
      assert s[0..] == s;
    } else {
      SkipGap(s[1..], n - 1);
      var rest := MaskAll(Pieces(s[1..]));
      assert Pieces(s)[1..] == Pieces(s[1..]);
      assert MaskAll(Pieces(s)) == [Separator(s[0])] + rest;
      assert ([Separator(s[0])] + rest)[1..] == rest;
      assert s[1..][n - 1..] == s[n..];
      assert s[..n] == [s[0]] + s[1..][..n - 1];
    }
  }

  lemma {:induction false} TextAppend(a: seq<Piece>, b: seq<Piece>)
    ensures TextOf(a + b) == TextOf(a) + TextOf(b)
  {
    if a == [] {
      assert a + b == b;
    } else {
      assert (a + b)[1..] == a[1..] + b;
      TextAppend(a[1..], b);
    }
  }

  lemma MaskText()
    ensures TextOf(MaskPieces) == Mask
  {
    assert MaskPieces[1..] == [Run("REDACTED"), Separator(']')];
    assert MaskPieces[1..][1..] == [Separator(']')];
    assert MaskPieces[1..][1..][1..] == [];
  }

  lemma {:induction false} SkipRun(s: string)
    requires s != "" && IsToken(s[0])
    ensures var n := RunLength(s);
      n > 0 && Redact(s) == Kept(s[..n]) + Redact(s[n..])
  {
    var n := RunLength(s);
    var first := if n == CredentialLength then MaskPieces else [Run(s[..n])];
    assert Pieces(s)[1..] == Pieces(s[n..]);
    TextAppend(first, MaskAll(Pieces(s[n..])));
    MaskText();
    assert [Run(s[..n])][1..] == [];
    assert TextOf([Run(s[..n])]) == s[..n] + "";
  }

  // ----- What the masked text looks like -----

  predicate ProperPiece(p: Piece) {
    match p
    case Run(text) => text != "" && forall c <- text :: IsToken(c)
    case Separator(c) => !IsToken(c)
  }

  /** Pieces as they come from a text: runs are nonempty, made of token characters, and never adjacent. */
  predicate Proper(pieces: seq<Piece>) {
    && (forall k :: 0 <= k < |pieces| ==> ProperPiece(pieces[k]))
    && (forall k :: 0 < k < |pieces| ==> !(pieces[k - 1].Run? && pieces[k].Run?))
  }

  lemma {:induction false} PiecesAreProper(s: string)
    ensures Proper(Pieces(s))
    ensures s != "" && !IsToken(s[0]) ==> Pieces(s)[0].Separator?
    decreases |s|
  {
    if s == "" {
    } else {
      if !IsToken(s[0]) { PiecesAreProper(s[1..]); } else { PiecesAreProper(s[RunLength(s)..]); }
    }
  }

  lemma {:induction false} MaskKeepsProper(pieces: seq<Piece>)
    requires Proper(pieces)
    ensures Proper(MaskAll(pieces))
    ensures pieces != [] && pieces[0].Separator? ==> MaskAll(pieces)[0].Separator?
    ensures forall p <- MaskAll(pieces) :: !IsCredential(p)
    ensures MaskAll(pieces) == [] <==> pieces == []
  {
    if pieces == [] {
    } else {
      hide ProperPiece, Proper;
      var first, rest := if IsCredential(pieces[0]) then MaskPieces else [pieces[0]], MaskAll(pieces[1..]);
      ProperTail(pieces);
      MaskKeepsProper(pieces[1..]);
      MaskIsProper();
      ProperJoin(first, rest);
    }
  }

  lemma ProperTail(pieces: seq<Piece>)
    requires Proper(pieces) && pieces != []
    ensures Proper([pieces[0]]) && Proper(pieces[1..])
    ensures pieces[0].Run? && |pieces| > 1 ==> pieces[1].Separator?
  {
    hide ProperPiece;
  }

  lemma ProperJoin(a: seq<Piece>, b: seq<Piece>)
    requires Proper(a) && Proper(b) && a != []
    requires b != [] ==> !(a[|a| - 1].Run? && b[0].Run?)
    ensures Proper(a + b)
    ensures (forall p <- a :: !IsCredential(p)) && (forall p <- b :: !IsCredential(p)) ==>
      forall p <- a + b :: !IsCredential(p)
  {
    hide ProperPiece, IsCredential;
    assert forall k :: 0 <= k < |a + b| ==> (a + b)[k] == if k < |a| then a[k] else b[k - |a|];
  }

  lemma MaskIsProper()
    ensures Proper(MaskPieces) && forall p <- MaskPieces :: !IsCredential(p)
  {
    assert |"REDACTED"| == 8;
  }

  lemma RunLengthIs(s: string, n: nat)
    requires n <= |s| && (forall k :: 0 <= k < n ==> IsToken(s[k])) && (n < |s| ==> !IsToken(s[n]))
    ensures RunLength(s) == n
  {
    var m := RunLength(s);
    assert m < |s| ==> !IsToken(s[m]);
  }

  /** Proper pieces are the pieces of their text. */
  lemma {:induction false} ProperPieces(pieces: seq<Piece>)
    requires Proper(pieces)
    ensures Pieces(TextOf(pieces)) == pieces
    ensures pieces != [] ==> TextOf(pieces) != ""
    ensures pieces != [] && pieces[0].Separator? ==> TextOf(pieces)[0] == pieces[0].c
  {
    if pieces == [] {
    } else {
      var rest := pieces[1..];
      ProperPieces(rest);
      var s, tail := TextOf(pieces), TextOf(rest);
      hide IsToken, TextOf;
      assert pieces == [pieces[0]] + rest;
      TextOfCons(pieces[0], rest);
      NoPieces();
      assert pieces[0] in pieces;
      match pieces[0] {
        case Separator(c) => assert s[1..] == tail;
        case Run(text) =>
          var n := |text|;
          assert forall k :: 0 <= k < n ==> text[k] in text;
          if rest != [] { assert rest[0] == pieces[1] && rest[0] in pieces; }
          RunLengthIs(s, n);
          assert s[..n] == text && s[n..] == tail;
      }
    }
  }

  /**
   The pieces of the redacted text are those of the input with every 43-character run replaced: all other
   runs and separators stay, in order, no run of that length is left, and redacting again changes nothing.
   */
  lemma RedactionLaw(s: string)
    ensures Pieces(Redact(s)) == MaskAll(Pieces(s))
    ensures forall p <- Pieces(Redact(s)) :: !IsCredential(p)
    ensures Redact(Redact(s)) == Redact(s)
  {
    PiecesAreProper(s);
    MaskKeepsProper(Pieces(s));
    ProperPieces(MaskAll(Pieces(s)));
    NoCredentialNoChange(MaskAll(Pieces(s)));
  }

  lemma {:induction false} NoCredentialNoChange(pieces: seq<Piece>)
    ensures MaskAll(pieces) == pieces <==> forall p <- pieces :: !IsCredential(p)
    ensures |MaskAll(pieces)| >= |pieces|
    ensures (exists p <- pieces :: IsCredential(p)) ==> |MaskAll(pieces)| > |pieces|
  {
    if pieces == [] {
    } else {
      NoCredentialNoChange(pieces[1..]);
      assert forall p <- pieces :: p == pieces[0] || p in pieces[1..];
    }
  }

  /** A text is left as it is exactly when it has no such run. */
  lemma UnchangedIff(s: string)
    ensures Redact(s) == s <==> forall p <- Pieces(s) :: !IsCredential(p)
  {
    PiecesMakeText(s);
    RedactionLaw(s);
    NoCredentialNoChange(Pieces(s));
  }

  /** An identifier made of token characters is kept exactly when it is not 43 characters long. */
  lemma TokenIsKeptIff(id: string)
    requires forall c <- id :: IsToken(c)
    ensures Redact(id) == id <==> |id| != CredentialLength
  {
    if id != "" {
      assert forall k :: 0 <= k < |id| ==> id[k] in id;
      RunLengthIs(id, |id|);
      assert id[..|id|] == id && id[|id|..] == "";
      assert Pieces(id) == [Run(id)] + [];
    }
    UnchangedIff(id);
  }
}
