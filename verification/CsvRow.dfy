/**
 One row of comma-separated values with quoted fields (section 2 of RFC 4180, without record breaks).
 Models parse_csv_row of common/arg.cpp.
 */
module CsvRow {
  import opened Common

  /** The fields from position i, with the field read so far. */
  function ParseFrom(s: string, i: nat, field: string, inQuotes: bool): (r: seq<string>)
    requires i <= |s|
    ensures r != []
    decreases |s| - i
  {
    if i == |s| then [field]
    else if s[i] == '"' then
      if !inQuotes then
        if field != "" then ParseFrom(s, i + 1, field + "\"", false) else ParseFrom(s, i + 1, field, true)
      else if i + 1 < |s| && s[i + 1] == '"' then ParseFrom(s, i + 2, field + "\"", true)
      else ParseFrom(s, i + 1, field, false)
    else if s[i] == ',' && !inQuotes then [field] + ParseFrom(s, i + 1, "", false)
    else ParseFrom(s, i + 1, field + [s[i]], inQuotes)
  }

  function Parse(s: string): seq<string> {
    ParseFrom(s, 0, "", false)
  }

  method ParseCsvRow(input: string) returns (fields: seq<string>)
    ensures fields == Parse(input)
  {
    fields := [];
    var field, inQuotes := "", false;
    var i := 0;
    while i < |input|
      invariant i <= |input| && fields + ParseFrom(input, i, field, inQuotes) == Parse(input)
    {
      var ch := input[i];
      if ch == '"' {
        if !inQuotes {
          if field != "" {
            field := field + "\"";
          } else {
            inQuotes := true;
          }
        } else {
          if i + 1 < |input| && input[i + 1] == '"' {
            field := field + "\"";
            i := i + 1;
          } else {
            inQuotes := false;
          }
        }
      } else if ch == ',' {
        if inQuotes {
          field := field + ",";
        } else {
          assert fields + ([field] + ParseFrom(input, i + 1, "", false))
              == (fields + [field]) + ParseFrom(input, i + 1, "", false);
          fields := fields + [field];
          field := "";
        }
      } else {
        field := field + [ch];
      }
      i := i + 1;
    }
    fields := fields + [field];
  }

  // ---- printing ----

  /** A field that may be written as it is: no comma, and no quote at the start. */
  predicate Plain(f: string) {
    (f != "" ==> f[0] != '"') && forall k :: 0 <= k < |f| ==> f[k] != ','
  }

  function Doubled(f: string): string {
    if f == "" then "" else (if f[0] == '"' then "\"\"" else [f[0]]) + Doubled(f[1..])
  }

  function Quoted(f: string): string {
    "\"" + Doubled(f) + "\""
  }

  /** The ways to write a field: any field may be quoted, a plain one need not be, and plain text may follow quoted. */
  predicate Writes(piece: string, f: string) {
    (piece == f && Plain(f)) || exists k :: 0 <= k <= |f| && Plain(f[k..]) && piece == Quoted(f[..k]) + f[k..]
  }

  function JoinFields(pieces: seq<string>): string {
    if pieces == [] then ""
    else if |pieces| == 1 then pieces[0]
    else pieces[0] + "," + JoinFields(pieces[1..])
  }

  /** The text from position i is the piece and then the rest. */
  predicate At(s: string, i: nat, piece: string, rest: string) {
    i <= |s| && s[i..] == piece + rest
  }

  lemma AtNext(s: string, i: nat, x: string, y: string, rest: string)
    requires At(s, i, x + y, rest)
    ensures i + |x| <= |s| && At(s, i + |x|, y, rest) && forall k :: 0 <= k < |x| ==> s[i + k] == x[k]
  {
    assert s[i..] == x + (y + rest);
    assert s[i + |x|..] == s[i..][|x|..] == y + rest;
    assert forall k :: 0 <= k < |x| ==> s[i + k] == s[i..][k];
  }

  /** Inside quotes the doubled text is read back up to the closing quote. */
  lemma {:induction false} ReadDoubled(s: string, i: nat, field: string, f: string, rest: string)
    requires At(s, i, Doubled(f) + "\"", rest) && (rest != "" ==> rest[0] != '"')
    ensures i + |Doubled(f)| + 1 <= |s|
    ensures ParseFrom(s, i, field, true) == ParseFrom(s, i + |Doubled(f)| + 1, field + f, false)
    decreases |f|
  {
    if f == "" {
      assert s[i] == s[i..][0] == '"';
      assert i + 1 < |s| ==> s[i + 1] == s[i..][1] == rest[0];
      assert field + "" == field;
    } else {
      var x := if f[0] == '"' then "\"\"" else [f[0]];
      assert Doubled(f) + "\"" == x + (Doubled(f[1..]) + "\"");
      AtNext(s, i, x, Doubled(f[1..]) + "\"", rest);
      assert s[i] == x[0];
      assert |x| == 2 ==> s[i + 1] == x[1];
      var more := field + [f[0]];
      ReadDoubled(s, i + |x|, more, f[1..], rest);
      assert more + f[1..] == field + f;
    }
  }

  /** Outside quotes plain text is read as it is; quotes after the first character are literal. */
  lemma {:induction false} ReadPlain(s: string, i: nat, field: string, f: string, rest: string)
    requires At(s, i, f, rest) && forall k :: 0 <= k < |f| ==> f[k] != ','
    requires field == "" && f != "" ==> f[0] != '"'
    ensures i + |f| <= |s| && ParseFrom(s, i, field, false) == ParseFrom(s, i + |f|, field + f, false)
    decreases |f|
  {
    if f == "" {
      assert field + "" == field;
    } else {
      assert f == [f[0]] + f[1..];
      AtNext(s, i, [f[0]], f[1..], rest);
      assert s[i + 0] == f[0];
      ReadPlain(s, i + 1, field + [f[0]], f[1..], rest);
      assert field + [f[0]] + f[1..] == field + f;
    }
  }

  lemma ReadField(s: string, i: nat, piece: string, f: string, rest: string)
    requires At(s, i, piece, rest) && Writes(piece, f) && (rest != "" ==> rest[0] == ',')
    ensures i + |piece| <= |s| && ParseFrom(s, i, "", false) == ParseFrom(s, i + |piece|, f, false)
  {
    hide ParseFrom, Quoted, At;
    if piece == f && Plain(f) {
      ReadPlain(s, i, "", f, rest);
      assert "" + f == f;
    } else {
      var k :| 0 <= k <= |f| && Plain(f[k..]) && piece == Quoted(f[..k]) + f[k..];
      ReadQuoted(s, i, f[..k], f[k..], rest);
      assert f[..k] + f[k..] == f;
    }
  }

  /** After the closing quote the field goes on up to the comma. */
  lemma ReadQuoted(s: string, i: nat, f: string, more: string, rest: string)
    requires At(s, i, Quoted(f) + more, rest) && Plain(more) && (rest != "" ==> rest[0] == ',')
    ensures i + |Quoted(f)| + |more| <= |s|
    ensures ParseFrom(s, i, "", false) == ParseFrom(s, i + |Quoted(f)| + |more|, f + more, false)
  {
    hide ParseFrom, At, Quoted, Doubled;
    QuotedAt(s, i, f, more, rest);
    OpenQuote(s, i);
    ReadDoubled(s, i + 1, "", f, more + rest);
    assert "" + f == f;
    ReadPlain(s, i + 2 + |Doubled(f)|, f, more, rest);
  }

  lemma OpenQuote(s: string, i: nat)
    requires i < |s| && s[i] == '"'
    ensures ParseFrom(s, i, "", false) == ParseFrom(s, i + 1, "", true)
  {
  }

  lemma QuotedAt(s: string, i: nat, f: string, more: string, rest: string)
    requires At(s, i, Quoted(f) + more, rest)
    ensures |Quoted(f)| == |Doubled(f)| + 2 && i < |s| && s[i] == '"'
    ensures At(s, i + 1, Doubled(f) + "\"", more + rest) && At(s, i + 2 + |Doubled(f)|, more, rest)
  {
    hide Doubled;
    var body := Doubled(f) + "\"";
    assert Quoted(f) + more == "\"" + (body + more);
    AtNext(s, i, "\"", body + more, rest);
    assert s[i + 0] == '"';
    AtNext(s, i + 1, body, more, rest);
    assert body + more + rest == body + (more + rest);
  }

  /** A quoted field that is never closed goes on to the end of the row. */
  lemma ParseUnclosed(f: string)
    ensures Parse("\"" + Doubled(f)) == [f]
  {
    var s := "\"" + Doubled(f);
    assert s[1..] == Doubled(f);
    ReadUnclosed(s, 1, "", f);
    assert "" + f == f;
  }

  lemma {:induction false} ReadUnclosed(s: string, i: nat, field: string, f: string)
    requires i <= |s| && s[i..] == Doubled(f)
    ensures ParseFrom(s, i, field, true) == [field + f]
    decreases |f|
  {
    if f == "" {
      assert field + "" == field;
    } else {
      var x := if f[0] == '"' then "\"\"" else [f[0]];
      assert s[i..] == x + Doubled(f[1..]);
      assert s[i] == s[i..][0] == x[0] && (|x| == 2 ==> s[i + 1] == s[i..][1] == x[1]);
      assert s[i + |x|..] == s[i..][|x|..] == Doubled(f[1..]);
      ReadUnclosed(s, i + |x|, field + [f[0]], f[1..]);
      assert field + [f[0]] + f[1..] == field + f;
    }
  }

  lemma JoinedParts(s: string, i: nat, piece: string, rest: string)
    requires i <= |s| && s[i..] == piece + rest
    ensures i + |piece| <= |s| && s[i + |piece|..] == rest
    ensures rest != "" ==> i + |piece| < |s| && s[i + |piece|] == rest[0] && s[i + |piece| + 1..] == rest[1..]
  {
    assert s[i + |piece|..] == s[i..][|piece|..];
    if rest != "" {
      assert s[i + |piece|] == s[i..][|piece|];
      assert s[i + |piece| + 1..] == s[i..][|piece|..][1..];
    }
  }

  lemma ParseComma(s: string, j: nat, field: string)
    requires j < |s| && s[j] == ','
    ensures ParseFrom(s, j, field, false) == [field] + ParseFrom(s, j + 1, "", false)
  {
  }

  lemma ParseEnd(s: string, field: string)
    ensures ParseFrom(s, |s|, field, false) == [field]
  {
  }

  lemma {:induction false} ParseJoined(s: string, i: nat, pieces: seq<string>, fields: seq<string>)
    requires i <= |s| && s[i..] == JoinFields(pieces) && |pieces| == |fields| > 0
    requires forall k :: 0 <= k < |fields| ==> Writes(pieces[k], fields[k])
    ensures ParseFrom(s, i, "", false) == fields
    decreases |pieces|
  {
    hide Writes, ParseFrom;
    var rest := if |pieces| == 1 then "" else "," + JoinFields(pieces[1..]);
    assert JoinFields(pieces) == pieces[0] + rest;
    hide JoinFields;
    ReadField(s, i, pieces[0], fields[0], rest);
    JoinedParts(s, i, pieces[0], rest);
    var j := i + |pieces[0]|;
    if |pieces| == 1 {
      ParseEnd(s, fields[0]);
      assert fields == [fields[0]];
    } else {
      ParseComma(s, j, fields[0]);
      assert rest[1..] == JoinFields(pieces[1..]);
      ParseJoined(s, j + 1, pieces[1..], fields[1..]);
      assert fields == [fields[0]] + fields[1..];
    }
  }

  /** Parsing undoes printing for every non-empty list of fields and every choice of fields to quote. */
  lemma ParsePrinted(pieces: seq<string>, fields: seq<string>)
    requires |pieces| == |fields| > 0 && forall k :: 0 <= k < |fields| ==> Writes(pieces[k], fields[k])
    ensures Parse(JoinFields(pieces)) == fields
  {
    var s := JoinFields(pieces);
    assert s[0..] == s;
    ParseJoined(s, 0, pieces, fields);
  }

  // ---- quoting only where it is needed ----

  function TotalSize(fields: seq<string>): nat {
    if fields == [] then 0 else |fields[0]| + TotalSize(fields[1..])
  }

  /** The parser writes at most one character for each one it reads. */
  lemma {:induction false} ParsedSize(s: string, i: nat, field: string, inQuotes: bool)
    requires i <= |s|
    ensures TotalSize(ParseFrom(s, i, field, inQuotes)) <= |field| + (|s| - i)
    decreases |s| - i
  {
    if i < |s| {
      if s[i] == '"' {
        if i + 1 < |s| {
          ParsedSize(s, i + 2, field + "\"", true);
        }
        ParsedSize(s, i + 1, field + "\"", false);
        ParsedSize(s, i + 1, field, true);
        ParsedSize(s, i + 1, field, false);
      } else {
        ParsedSize(s, i + 1, "", false);
        ParsedSize(s, i + 1, field + [s[i]], inQuotes);
        assert ([field] + ParseFrom(s, i + 1, "", false))[1..] == ParseFrom(s, i + 1, "", false);
      }
    } else {
      assert [field][1..] == [];
    }
  }

  lemma {:induction false} CommaSplits(s: string, i: nat, field: string, k: nat)
    requires i <= k < |s| && s[k] == ',' && forall j :: i <= j < k ==> s[j] != ','
    requires field == "" ==> s[i] != '"'
    ensures |ParseFrom(s, i, field, false)| > 1
    decreases k - i
  {
    if i < k {
      CommaSplits(s, i + 1, field + [s[i]], k);
    }
  }

  function FirstComma(f: string, i: nat): (k: nat)
    requires i <= |f|
    ensures i <= k <= |f| && (k < |f| ==> f[k] == ',') && forall j :: i <= j < k ==> f[j] != ','
    decreases |f| - i
  {
    if i == |f| || f[i] == ',' then i else FirstComma(f, i + 1)
  }

  /** A field written without quotes comes back exactly when it is plain. */
  lemma PlainExactly(f: string)
    ensures Parse(f) == [f] <==> Plain(f)
  {
    if Plain(f) {
      assert JoinFields([f]) == f;
      ParsePrinted([f], [f]);
    } else if f[0] == '"' {
      ParsedSize(f, 1, "", true);
      assert [f][1..] == [];
      assert TotalSize([f]) == |f|;
    } else {
      CommaSplits(f, 0, "", FirstComma(f, 0));
    }
  }
}
