/**
 The rows that dev/bulkseed/lib/generate.py writes, and PostgreSQL's reading of them: the "Text
 Format" section of the documentation of COPY.
 */
module CopyText {
  // ------------------------------------------------------------------------------------- writing

  /** A number is given by the way Python prints it. */
  datatype Value = Null | Bool(b: bool) | Number(text: string) | Text(text: string) {
    predicate Ok() {
      Number? ==> forall c :: c in text ==> !Special(c)
    }
  }

  predicate Special(c: char) {
    c == '\\' || c == '\t' || c == '\n' || c == '\r'
  }

  function Replace(s: string, c: char, sub: string): string {
    if s == [] then [] else (if s[0] == c then sub else [s[0]]) + Replace(s[1..], c, sub)
  }

  function Tsv(v: Value): string {
    match v
    case Null => "\\N"
    case Bool(b) => if b then "t" else "f"
    case Number(text) => text
    case Text(text) => Chain(text)
  }

  function Chain(s: string): string {
    Replace(Replace(Replace(Replace(s, '\\', "\\\\"), '\t', "\\t"), '\n', "\\n"), '\r', "")
  }

  function Encoded(vs: seq<Value>): (xs: seq<string>)
    ensures |xs| == |vs| && forall i :: 0 <= i < |vs| ==> xs[i] == Tsv(vs[i])
  {
    seq(|vs|, i requires 0 <= i < |vs| => Tsv(vs[i]))
  }

  function Join(xs: seq<string>, sep: char): string {
    if xs == [] then [] else if |xs| == 1 then xs[0] else xs[0] + [sep] + Join(xs[1..], sep)
  }

  function Row(vs: seq<Value>): string {
    Join(Encoded(vs), '\t') + "\n"
  }

  function File(rows: seq<seq<Value>>): string {
    if rows == [] then [] else Row(rows[0]) + File(rows[1..])
  }

  // ------------------------------------------------------------------------------------- reading

  datatype Field = Missing | Data(text: string)

  function Prepend(x: string, pieces: seq<string>): (r: seq<string>)
    requires pieces != []
    ensures |r| == |pieces|
  {
    [x + pieces[0]] + pieces[1..]
  }

  /** The pieces between stop characters; a backslash takes the character after it along. */
  function Split(s: string, stop: char): (pieces: seq<string>)
    ensures pieces != []
  {
    if s == [] then [[]]
    else if s[0] == '\\' && |s| >= 2 then Prepend(s[..2], Split(s[2..], stop))
    else if s[0] == stop then [[]] + Split(s[1..], stop)
    else Prepend(s[..1], Split(s[1..], stop))
  }

  /** What follows the last newline counts as a line only if there is something. */
  function Lines(file: string): seq<string> {
    var pieces := Split(file, '\n');
    if pieces[|pieces| - 1] == [] then pieces[..|pieces| - 1] else pieces
  }

  predicate Octal(c: char) {
    '0' <= c <= '7'
  }

  function HexDigit(c: char): int {
    if '0' <= c <= '9' then c as int - '0' as int
    else if 'a' <= c <= 'f' then c as int - 'a' as int + 10
    else if 'A' <= c <= 'F' then c as int - 'A' as int + 10
    else -1
  }

  /** The character that an escape stands for, and how much of s it takes; s follows a backslash. */
  function Escaped(s: string): (r: (char, nat))
    requires s != []
    ensures 1 <= r.1 <= |s|
  {
    var c := s[0];
    if c == 'b' then (8 as char, 1)
    else if c == 'f' then (12 as char, 1)
    else if c == 'n' then ('\n', 1)
    else if c == 'r' then ('\r', 1)
    else if c == 't' then ('\t', 1)
    else if c == 'v' then (11 as char, 1)
    else if Octal(c) then
      var one := c as int - '0' as int;
      if |s| >= 2 && Octal(s[1]) then
        var two := 8 * one + (s[1] as int - '0' as int);
        if |s| >= 3 && Octal(s[2]) then (((8 * two + (s[2] as int - '0' as int)) % 256) as char, 3)
        else (two as char, 2)
      else (one as char, 1)
    else if c == 'x' && |s| >= 2 && HexDigit(s[1]) >= 0 then
      if |s| >= 3 && HexDigit(s[2]) >= 0 then ((16 * HexDigit(s[1]) + HexDigit(s[2])) as char, 3)
      else (HexDigit(s[1]) as char, 2)
    else (c, 1)
  }

  function Unescape(s: string): string
    decreases |s|
  {
    if s == [] then []
    else if s[0] != '\\' then [s[0]] + Unescape(s[1..])
    else if |s| == 1 then []
    else
      var (c, n) := Escaped(s[1..]);
      [c] + Unescape(s[1 + n..])
  }

  function FieldOf(raw: string): Field {
    if raw == "\\N" then Missing else Data(Unescape(raw))
  }

  function FieldsOf(raws: seq<string>): (fs: seq<Field>)
    ensures |fs| == |raws| && forall i :: 0 <= i < |raws| ==> fs[i] == FieldOf(raws[i])
  {
    seq(|raws|, i requires 0 <= i < |raws| => FieldOf(raws[i]))
  }

  /** Lines up to the end-of-data marker. */
  function Rows(lines: seq<string>): seq<seq<Field>> {
    if lines == [] || lines[0] == "\\." then []
    else [FieldsOf(Split(lines[0], '\t'))] + Rows(lines[1..])
  }

  function Decode(file: string): seq<seq<Field>> {
    Rows(Lines(file))
  }

  // --------------------------------------------------------------------- chained and in one pass

  function EscapeChar(c: char): string {
    if c == '\\' then "\\\\"
    else if c == '\t' then "\\t"
    else if c == '\n' then "\\n"
    else if c == '\r' then ""
    else [c]
  }

  function Escape(s: string): string {
    if s == [] then [] else EscapeChar(s[0]) + Escape(s[1..])
  }

  lemma {:induction false} ReplaceConcat(a: string, b: string, c: char, sub: string)
    ensures Replace(a + b, c, sub) == Replace(a, c, sub) + Replace(b, c, sub)
  {
    if a == [] {
      assert a + b == b;
    } else {
      assert (a + b)[1..] == a[1..] + b;
      ReplaceConcat(a[1..], b, c, sub);
    }
  }

  lemma ChainConcat(a: string, b: string)
    ensures Chain(a + b) == Chain(a) + Chain(b)
  {
    ReplaceConcat(a, b, '\\', "\\\\");
    var a1, b1 := Replace(a, '\\', "\\\\"), Replace(b, '\\', "\\\\");
    ReplaceConcat(a1, b1, '\t', "\\t");
    var a2, b2 := Replace(a1, '\t', "\\t"), Replace(b1, '\t', "\\t");
    ReplaceConcat(a2, b2, '\n', "\\n");
    ReplaceConcat(Replace(a2, '\n', "\\n"), Replace(b2, '\n', "\\n"), '\r', "");
  }

  lemma ReplaceOne(x: char, c: char, sub: string)
    ensures Replace([x], c, sub) == if x == c then sub else [x]
  {
  }

  lemma ReplaceTwo(x: char, y: char, c: char, sub: string)
    requires x != c && y != c
    ensures Replace([x, y], c, sub) == [x, y]
  {
    assert [x, y] == [x] + [y];
    ReplaceConcat([x], [y], c, sub);
    ReplaceOne(x, c, sub);
    ReplaceOne(y, c, sub);
  }

  lemma ChainOne(x: char)
    ensures Chain([x]) == EscapeChar(x)
  {
    ReplaceOne(x, '\\', "\\\\");
    if x == '\\' {
      ReplaceTwo('\\', '\\', '\t', "\\t");
      ReplaceTwo('\\', '\\', '\n', "\\n");
      ReplaceTwo('\\', '\\', '\r', "");
    } else {
      ReplaceOne(x, '\t', "\\t");
      if x == '\t' {
        ReplaceTwo('\\', 't', '\n', "\\n");
        ReplaceTwo('\\', 't', '\r', "");
      } else {
        ReplaceOne(x, '\n', "\\n");
        if x == '\n' {
          ReplaceTwo('\\', 'n', '\r', "");
        } else {
          ReplaceOne(x, '\r', "");
        }
      }
    }
  }

  /** Doubling backslashes first makes the four replacements one escape of every character. */
  lemma {:induction false} ChainIsEscape(s: string)
    ensures Chain(s) == Escape(s)
  {
    if s != [] {
      assert s == [s[0]] + s[1..];
      ChainConcat([s[0]], s[1..]);
      ChainOne(s[0]);
      ChainIsEscape(s[1..]);
    }
  }

  // ---------------------------------------------------------------------------------- round trip

  function WithoutReturns(s: string): string {
    Replace(s, '\r', "")
  }

  function Meaning(v: Value): Field {
    match v
    case Null => Missing
    case Bool(b) => Data(if b then "t" else "f")
    case Number(text) => Data(text)
    case Text(text) => Data(WithoutReturns(text))
  }

  function Meanings(vs: seq<Value>): (fs: seq<Field>)
    ensures |fs| == |vs| && forall i :: 0 <= i < |vs| ==> fs[i] == Meaning(vs[i])
  {
    seq(|vs|, i requires 0 <= i < |vs| => Meaning(vs[i]))
  }

  function Table(rows: seq<seq<Value>>): (t: seq<seq<Field>>)
    ensures |t| == |rows|
  {
    if rows == [] then [] else [Meanings(rows[0])] + Table(rows[1..])
  }

  lemma {:induction false} UnescapeEscape(s: string)
    ensures Unescape(Escape(s)) == WithoutReturns(s)
  {
    if s != [] {
      UnescapeEscape(s[1..]);
      var rest := Escape(s[1..]);
      var e := Escape(s);
      if Special(s[0]) && s[0] != '\r' {
        assert e[2..] == rest && e[1..][0] == e[1];
      } else if s[0] != '\r' {
        assert e[1..] == rest;
      } else {
        assert e == rest;
      }
    }
  }

  lemma {:induction false} UnescapePlain(s: string)
    requires forall c :: c in s ==> !Special(c)
    ensures Unescape(s) == s
  {
    if s != [] {
      assert s[0] in s;
      UnescapePlain(s[1..]);
    }
  }

  /** No encoded text starts with a backslash and anything but one of these. */
  lemma {:induction false} EscapeStarts(s: string)
    ensures var e := Escape(s);
      e != [] && e[0] == '\\' ==> |e| >= 2 && (e[1] == '\\' || e[1] == 't' || e[1] == 'n')
  {
    if s != [] {
      EscapeStarts(s[1..]);
      if s[0] == '\r' {
        assert Escape(s) == Escape(s[1..]);
      }
    }
  }

  /** One field: what is written is read back, and only NULL is written as \N. */
  lemma FieldRoundTrip(v: Value)
    requires v.Ok()
    ensures FieldOf(Tsv(v)) == Meaning(v)
    ensures Tsv(v) == "\\N" <==> v.Null?
    ensures Tsv(v) != "\\."
  {
    match v
    case Null =>
    case Bool(b) =>
      UnescapePlain(Tsv(v));
    case Number(text) =>
      UnescapePlain(text);
      assert "\\N"[0] == '\\' && "\\."[0] == '\\';
    case Text(text) =>
      ChainIsEscape(text);
      UnescapeEscape(text);
      EscapeStarts(text);
      assert "\\N"[1] == 'N' && "\\."[1] == '.';
  }

  /** Made of pairs that start with a backslash and of other characters, none of them stop. */
  predicate Scans(x: string, stop: char) {
    x == [] ||
    (if x[0] == '\\' then |x| >= 2 && Scans(x[2..], stop) else x[0] != stop && Scans(x[1..], stop))
  }

  lemma {:induction false} ScansConcat(a: string, b: string, stop: char)
    requires Scans(a, stop) && Scans(b, stop)
    ensures Scans(a + b, stop)
  {
    if a == [] {
      assert a + b == b;
    } else if a[0] == '\\' {
      assert (a + b)[2..] == a[2..] + b;
      ScansConcat(a[2..], b, stop);
    } else {
      assert (a + b)[1..] == a[1..] + b;
      ScansConcat(a[1..], b, stop);
    }
  }

  lemma {:induction false} EscapeScans(s: string, stop: char)
    requires stop == '\t' || stop == '\n'
    ensures Scans(Escape(s), stop)
  {
    if s != [] {
      EscapeScans(s[1..], stop);
      assert EscapeChar(s[0]) != [] && EscapeChar(s[0])[0] == '\\' ==> EscapeChar(s[0])[2..] == [];
      assert Scans(EscapeChar(s[0]), stop);
      ScansConcat(EscapeChar(s[0]), Escape(s[1..]), stop);
    }
  }

  lemma {:induction false} PlainScans(s: string, stop: char)
    requires stop == '\t' || stop == '\n'
    requires forall c :: c in s ==> !Special(c)
    ensures Scans(s, stop)
  {
    if s != [] {
      assert s[0] in s;
      PlainScans(s[1..], stop);
    }
  }

  lemma TsvScans(v: Value, stop: char)
    requires v.Ok() && (stop == '\t' || stop == '\n')
    ensures Scans(Tsv(v), stop)
  {
    match v
    case Null => assert "\\N"[2..] == [];
    case Text(text) =>
      ChainIsEscape(text);
      EscapeScans(text, stop);
    case _ => PlainScans(Tsv(v), stop);
  }

  lemma PrependNothing(pieces: seq<string>)
    requires pieces != []
    ensures Prepend([], pieces) == pieces
  {
    assert [] + pieces[0] == pieces[0];
  }

  lemma PrependTwice(a: string, b: string, pieces: seq<string>)
    requires pieces != []
    ensures Prepend(a, Prepend(b, pieces)) == Prepend(a + b, pieces)
  {
    assert a + (b + pieces[0]) == a + b + pieces[0];
  }

  lemma {:induction false} SplitPasses(x: string, rest: string, stop: char)
    requires Scans(x, stop)
    ensures Split(x + rest, stop) == Prepend(x, Split(rest, stop))
  {
    if x == [] {
      assert x + rest == rest;
      PrependNothing(Split(rest, stop));
    } else {
      var n := if x[0] == '\\' then 2 else 1;
      SplitPasses(x[n..], rest, stop);
      assert (x + rest)[n..] == x[n..] + rest && (x + rest)[..n] == x[..n];
      PrependTwice(x[..n], x[n..], Split(rest, stop));
      assert x[..n] + x[n..] == x;
    }
  }

  lemma FirstPiece(x: string, rest: string, stop: char)
    requires Scans(x, stop) && stop != '\\'
    ensures Split(x + [stop] + rest, stop) == [x] + Split(rest, stop)
    ensures Split(x, stop) == [x]
  {
    SplitPasses(x, [stop] + rest, stop);
    assert x + [stop] + rest == x + ([stop] + rest) && ([stop] + rest)[1..] == rest;
    SplitPasses(x, [], stop);
    assert x + [] == x;
  }

  lemma {:induction false} SplitJoin(xs: seq<string>, stop: char)
    requires xs != [] && stop != '\\' && forall i :: 0 <= i < |xs| ==> Scans(xs[i], stop)
    ensures Split(Join(xs, stop), stop) == xs
  {
    if |xs| == 1 {
      FirstPiece(xs[0], [], stop);
    } else {
      SplitJoin(xs[1..], stop);
      FirstPiece(xs[0], Join(xs[1..], stop), stop);
    }
  }

  lemma {:induction false} JoinScans(xs: seq<string>)
    requires forall i :: 0 <= i < |xs| ==> Scans(xs[i], '\n')
    ensures Scans(Join(xs, '\t'), '\n')
  {
    if |xs| > 1 {
      JoinScans(xs[1..]);
      assert Scans(['\t'], '\n') by {
        assert ['\t'][1..] == [];
      }
      ScansConcat(xs[0], ['\t'], '\n');
      ScansConcat(xs[0] + ['\t'], Join(xs[1..], '\t'), '\n');
    }
  }

  lemma MarkerIsOnePiece()
    ensures Split("\\.", '\t') == ["\\."]
  {
    SplitPasses("\\.", [], '\t');
    assert Scans("\\."[2..], '\t');
    assert "\\." + [] == "\\.";
  }

  predicate RowOk(vs: seq<Value>) {
    vs != [] && forall v :: v in vs ==> v.Ok()
  }

  /** A line of one field or more never reads as the end-of-data marker, and its fields come back. */
  lemma LineRoundTrip(vs: seq<Value>)
    requires RowOk(vs)
    ensures var line := Join(Encoded(vs), '\t');
      line != "\\." && Scans(line, '\n') && FieldsOf(Split(line, '\t')) == Meanings(vs)
  {
    var xs := Encoded(vs);
    forall i | 0 <= i < |vs| ensures Scans(xs[i], '\t') && Scans(xs[i], '\n') && FieldOf(xs[i]) == Meaning(vs[i]) {
      TsvScans(vs[i], '\t');
      TsvScans(vs[i], '\n');
      FieldRoundTrip(vs[i]);
    }
    SplitJoin(xs, '\t');
    JoinScans(xs);
    FieldRoundTrip(vs[0]);
    MarkerIsOnePiece();
  }

  lemma {:induction false} FileLines(rows: seq<seq<Value>>)
    requires forall r :: r in rows ==> RowOk(r)
    ensures |Split(File(rows), '\n')| == |rows| + 1 && Split(File(rows), '\n')[|rows|] == []
    ensures Rows(Split(File(rows), '\n')[..|rows|]) == Table(rows)
  {
    if rows != [] {
      var line := Join(Encoded(rows[0]), '\t');
      var rest := File(rows[1..]);
      assert RowOk(rows[0]);
      LineRoundTrip(rows[0]);
      FileLines(rows[1..]);
      FirstPiece(line, rest, '\n');
      assert File(rows) == line + "\n" + rest;
      assert ([line] + Split(rest, '\n'))[..|rows|] == [line] + Split(rest, '\n')[..|rows| - 1];
    }
  }

  /** Reading a file of rows gives every field back, without its carriage returns; NULL and texts
      stay apart. */
  lemma FileRoundTrip(rows: seq<seq<Value>>)
    requires forall r :: r in rows ==> RowOk(r)
    ensures Decode(File(rows)) == Table(rows)
  {
    FileLines(rows);
  }

  /** A row without fields is the one exception: it reads as a row of one empty field. */
  lemma RowRoundTripIff(vs: seq<Value>)
    requires forall v :: v in vs ==> v.Ok()
    ensures Decode(Row(vs)) == [Meanings(vs)] <==> vs != []
  {
    if vs == [] {
      assert Row(vs) == "\n";
      assert "\n"[1..] == [];
      assert Split("\n", '\n') == [[], []];
      assert Lines("\n") == [[]];
      assert |Split([], '\t')| == 1;
      assert |Decode(Row(vs))[0]| == 1;
    } else {
      assert [vs][1..] == [];
      assert File([vs]) == Row(vs);
      FileRoundTrip([vs]);
    }
  }
}
