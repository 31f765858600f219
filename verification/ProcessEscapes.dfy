/**
 Backslash escapes processed in the buffer that holds them. Models string_process_escapes of
 common/common.cpp; a character is a byte.
 */
module ProcessEscapes {
  import opened Common

  // ---- the escapes ----

  /** The byte that strtol reads when it uses up both characters: blanks and signs count as a first one. */
  function HexPair(c: char, d: char): Option<char> {
    match HexValue(d)
    case None => None
    case Some(low) =>
      if HexValue(c).Some? then Some((HexValue(c).value * 16 + low) as char)
      else if IsSpace(c) || c == '+' then Some(low as char)
      else if c == '-' then Some(((256 - low) % 256) as char)
      else None
  }

  /** The character of a two-character escape. */
  function Short(c: char): Option<char> {
    if c == 'n' then Some('\n')
    else if c == 'r' then Some('\r')
    else if c == 't' then Some('\t')
    else if c == '\'' || c == '"' || c == '\\' then Some(c)
    else None
  }

  /** What is written for the text at position i, and where reading goes on. */
  datatype Piece = Piece(out: string, next: nat)

  function PieceAt(s: string, i: nat): (p: Piece)
    requires i < |s|
    ensures i < p.next <= |s| && |p.out| <= p.next - i
  {
    if s[i] != '\\' || i + 1 == |s| then Piece([s[i]], i + 1)
    else
      var c := s[i + 1];
      if Short(c).Some? then Piece([Short(c).value], i + 2)
      else if c == 'x' && i + 3 < |s| && HexPair(s[i + 2], s[i + 3]).Some? then
        Piece([HexPair(s[i + 2], s[i + 3]).value], i + 4)
      else Piece(['\\', c], i + 2)
  }

  function UnescapeFrom(s: string, i: nat): (r: string)
    requires i <= |s|
    decreases |s| - i
  {
    if i == |s| then "" else PieceAt(s, i).out + UnescapeFrom(s, PieceAt(s, i).next)
  }

  function Unescape(s: string): string {
    UnescapeFrom(s, 0)
  }

  // ---- in place ----

  /** The part not yet read is as it was. */
  ghost predicate Unread(a: array<char>, s: string, i: nat)
    reads a
  {
    a.Length == |s| && forall k :: i <= k < |s| ==> a[k] == s[k]
  }

  /** The first n cells hold the result; nothing was overwritten before it was read. */
  method ProcessInPlace(a: array<char>) returns (n: nat)
    modifies a
    ensures n <= a.Length && a[..n] == Unescape(old(a[..]))
  {
    hide PieceAt, UnescapeFrom;
    ghost var s := a[..];
    var i := 0;
    n := 0;
    while i < a.Length
      invariant n <= i <= a.Length && Unread(a, s, i)
      invariant a[..n] + UnescapeFrom(s, i) == Unescape(s)
    {
      ghost var done, p := a[..n], PieceAt(s, i);
      UnescapeStep(s, i);
      i, n := ProcessOne(a, s, i, n);
      assert (done + p.out) + UnescapeFrom(s, i) == done + (p.out + UnescapeFrom(s, i));
    }
    UnescapeEnd(s);
  }

  /** One character or escape: the cells written lie before those still to be read, also when `\x` falls through. */
  method ProcessOne(a: array<char>, ghost s: string, i: nat, n: nat) returns (i': nat, n': nat)
    requires n <= i < a.Length && Unread(a, s, i)
    modifies a
    ensures n' <= i' == PieceAt(s, i).next && Unread(a, s, i')
    ensures a[..n'] == old(a[..n]) + PieceAt(s, i).out
  {
    hide HexPair, Short;
    i', n' := i, n;
    if a[i'] == '\\' && i' + 1 < a.Length {
      i' := i' + 1;
      var c := a[i'];
      if Short(c).Some? {
        a[n'] := Short(c).value;
        n' := n' + 1;
      } else {
        var val := None;
        if c == 'x' && i' + 2 < a.Length {
          val := HexPair(a[i' + 1], a[i' + 2]);
        }
        if val.Some? {
          i' := i' + 2;
          a[n'] := val.value;
          n' := n' + 1;
        } else {
          a[n'] := '\\';
          n' := n' + 1;
          a[n'] := a[i'];
          n' := n' + 1;
        }
      }
    } else {
      a[n'] := a[i'];
      n' := n' + 1;
    }
    i' := i' + 1;
  }

  lemma UnescapeStep(s: string, i: nat)
    requires i < |s|
    ensures UnescapeFrom(s, i) == PieceAt(s, i).out + UnescapeFrom(s, PieceAt(s, i).next)
  {
  }

  lemma UnescapeEnd(s: string)
    ensures UnescapeFrom(s, |s|) == ""
  {
  }

  // ---- the inverse ----

  /** The ways to write one character: itself, a short escape, or two hexadecimal digits. */
  predicate Writes(piece: string, c: char) {
    || (piece == [c] && c != '\\')
    || (piece == "\\n" && c == '\n') || (piece == "\\r" && c == '\r') || (piece == "\\t" && c == '\t')
    || (piece == ['\\', c] && (c == '\'' || c == '"' || c == '\\'))
    || (|piece| == 4 && piece[0] == '\\' && piece[1] == 'x' && WritesHex(piece[2], piece[3], c))
  }

  const LOWER: string := "0123456789abcdef"
  const UPPER: string := "0123456789ABCDEF"

  /** The character is a digit of this value. */
  predicate IsDigit(c: char, v: nat)
    requires v < 16
  {
    c == LOWER[v] || c == UPPER[v]
  }

  /** Two hexadecimal digits, the higher one first, in either case. */
  predicate WritesHex(high: char, low: char, c: char) {
    c as int < 256 && IsDigit(high, c as int / 16) && IsDigit(low, c as int % 16)
  }

  lemma DigitValue(c: char, v: nat)
    requires v < 16 && IsDigit(c, v)
    ensures HexValue(c) == Some(v)
  {
  }

  lemma HexRead(high: char, low: char, c: char)
    requires WritesHex(high, low, c)
    ensures HexPair(high, low) == Some(c)
  {
    DigitValue(high, c as int / 16);
    DigitValue(low, c as int % 16);
    hide HexValue, IsDigit;
  }

  /** A blank or a plus before the second digit counts as nothing, a minus takes the digit from 256. */
  lemma SignRead(high: char, low: char, v: nat)
    requires v < 16 && IsDigit(low, v)
    ensures high == ' ' || high == '+' ==> HexPair(high, low) == Some(v as char)
    ensures high == '-' ==> HexPair(high, low) == Some(((256 - v) % 256) as char)
  {
    DigitValue(low, v);
  }

  lemma PieceRead(done: string, piece: string, rest: string, c: char)
    requires Writes(piece, c)
    ensures PieceAt(done + piece + rest, |done|) == Piece([c], |done| + |piece|)
  {
    var s := done + piece + rest;
    PieceForm(piece, c);
    hide HexPair, Short, Writes;
    assert s[|done|] == piece[0];
    if |piece| > 1 {
      assert s[|done| + 1] == piece[1];
      if |piece| > 2 {
        assert s[|done| + 2] == piece[2] && s[|done| + 3] == piece[3];
        NotShort();
      }
    }
  }

  lemma PieceForm(piece: string, c: char)
    requires Writes(piece, c)
    ensures |piece| == 1 || |piece| == 2 || |piece| == 4
    ensures |piece| == 1 ==> piece == [c] && c != '\\'
    ensures |piece| == 2 ==> piece[0] == '\\' && Short(piece[1]) == Some(c)
    ensures |piece| == 4 ==> piece[0] == '\\' && piece[1] == 'x' && HexPair(piece[2], piece[3]) == Some(c)
  {
    if |piece| == 4 {
      HexRead(piece[2], piece[3], c);
    }
    hide HexPair, WritesHex;
  }

  lemma NotShort()
    ensures Short('x') == None
  {
  }

  lemma JoinedText(done: string, pieces: seq<string>)
    requires pieces != []
    ensures done + Concat(pieces) == (done + pieces[0]) + Concat(pieces[1..])
    ensures done + Concat(pieces) == done + pieces[0] + Concat(pieces[1..])
  {
  }

  /** Whatever way each character is written, unescaping gives the text back. */
  lemma {:induction false} UnescapeInverts(done: string, pieces: seq<string>, t: string)
    requires |pieces| == |t| && forall k :: 0 <= k < |t| ==> Writes(pieces[k], t[k])
    ensures UnescapeFrom(done + Concat(pieces), |done|) == t
    decreases |t|
  {
    hide Writes, PieceAt, Concat, UnescapeFrom;
    if t == "" {
      assert done + Concat(pieces) == done by {
        NoPieces();
      }
      UnescapeEnd(done);
    } else {
      var more := done + pieces[0];
      JoinedText(done, pieces);
      PieceRead(done, pieces[0], Concat(pieces[1..]), t[0]);
      UnescapeInverts(more, pieces[1..], t[1..]);
      WritesSome(pieces[0], t[0]);
      UnescapeStep(done + Concat(pieces), |done|);
      assert t == [t[0]] + t[1..];
    }
  }

  lemma NoPieces()
    ensures Concat<char>([]) == ""
  {
  }

  lemma WritesSome(piece: string, c: char)
    requires Writes(piece, c)
    ensures piece != ""
  {
  }

  /** A printer that escapes newline, return, tab, quotes and backslash is undone. */
  function PrintChar(c: char): (r: string)
    ensures Writes(r, c)
  {
    if c == '\n' then "\\n"
    else if c == '\r' then "\\r"
    else if c == '\t' then "\\t"
    else if c == '\'' || c == '"' || c == '\\' then ['\\', c]
    else [c]
  }

  function PrintPieces(t: string): (r: seq<string>)
    ensures |r| == |t| && forall k :: 0 <= k < |t| ==> Writes(r[k], t[k])
  {
    hide PrintChar, Writes;
    seq(|t|, k requires 0 <= k < |t| => PrintChar(t[k]))
  }

  lemma UnescapePrinted(t: string)
    ensures Unescape(Concat(PrintPieces(t))) == t
  {
    assert "" + Concat(PrintPieces(t)) == Concat(PrintPieces(t));
    UnescapeInverts("", PrintPieces(t), t);
  }

  // ---- what is left alone ----

  /** An escape that is recognised starts at position i. */
  predicate Recognised(s: string, i: nat)
    requires i < |s|
  {
    && s[i] == '\\' && i + 1 < |s|
    && (s[i + 1] in "nrt'\"\\" || (s[i + 1] == 'x' && i + 3 < |s| && IsPair(s[i + 2], s[i + 3])))
  }

  predicate IsHex(c: char) {
    '0' <= c <= '9' || 'a' <= c <= 'f' || 'A' <= c <= 'F'
  }

  /** A hexadecimal digit after another one, a blank or a sign. */
  predicate IsPair(c: char, d: char) {
    IsHex(d) && (IsHex(c) || IsSpace(c) || c == '+' || c == '-')
  }

  lemma EscapesKnown(c: char, d: char)
    ensures Short(c).Some? <==> c in "nrt'\"\\"
    ensures HexPair(c, d).Some? <==> IsPair(c, d)
  {
  }

  lemma {:induction false} NeverLonger(s: string, i: nat)
    requires i <= |s|
    ensures |UnescapeFrom(s, i)| <= |s| - i
    decreases |s| - i
  {
    hide PieceAt;
    if i < |s| {
      NeverLonger(s, PieceAt(s, i).next);
    }
  }

  /** A recognised escape gets shorter; anything else is written as it was read, and hides no escape. */
  lemma PieceKept(s: string, i: nat)
    requires i < |s|
    ensures Recognised(s, i) ==> |PieceAt(s, i).out| < PieceAt(s, i).next - i
    ensures !Recognised(s, i) ==> PieceAt(s, i).out == s[i..PieceAt(s, i).next]
    ensures !Recognised(s, i) ==> forall k :: i <= k < PieceAt(s, i).next ==> !Recognised(s, k)
  {
    assert s[i..i + 1] == [s[i]];
    if i + 1 < |s| {
      EscapesKnown(s[i + 1], s[i + 1]);
      assert s[i..i + 2] == [s[i], s[i + 1]];
    }
    if i + 3 < |s| {
      EscapesKnown(s[i + 2], s[i + 3]);
    }
    hide HexPair, IsPair, Short;
  }

  lemma {:induction false} UnchangedFrom(s: string, i: nat)
    requires i <= |s|
    ensures UnescapeFrom(s, i) == s[i..] <==> forall k :: i <= k < |s| ==> !Recognised(s, k)
    decreases |s| - i
  {
    hide PieceAt, Recognised;
    if i < |s| {
      var p := PieceAt(s, i);
      PieceKept(s, i);
      NeverLonger(s, p.next);
      UnchangedFrom(s, p.next);
      assert s[i..] == s[i..p.next] + s[p.next..];
      if !Recognised(s, i) {
        assert UnescapeFrom(s, i)[p.next - i..] == UnescapeFrom(s, p.next) && s[i..][p.next - i..] == s[p.next..];
      }
    }
  }

  /** A text is left unchanged exactly when no position starts an escape that is recognised. */
  lemma UnchangedExactly(s: string)
    ensures Unescape(s) == s <==> forall k :: 0 <= k < |s| ==> !Recognised(s, k)
  {
    assert s[0..] == s;
    UnchangedFrom(s, 0);
  }
}
