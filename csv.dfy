/** convertToCSV of JS/main.js: the records of the data log become one
    header line holding every key once, in the order the keys are first
    seen, and one line per record holding that record's value for each
    header key. Every field is put in double quotes with embedded quotes
    doubled, as in items 5 to 7 of section 2 of RFC 4180, but fields are
    separated by ';' and lines by '\n'.

    Csv is the definition; ConvertToCsv is the loop program of the source,
    proved to compute it; the lemmas state what the definition promises. */
module Csv {
  import opened Basics

  /** One record as getLogData builds it: its own keys in enumeration
      order, each with its text. */
  type Record = seq<(string, string)>

  /** Object.keys(item). */
  function Keys(item: Record): (r: seq<string>)
    ensures |r| == |item|
    ensures forall k :: 0 <= k < |item| ==> r[k] == item[k].0
  {
    seq(|item|, k requires 0 <= k < |item| => item[k].0)
  }

  /** item[key] !== undefined ? item[key] : '' */
  function FieldValue(item: Record, key: string): (v: string)
    ensures (forall k :: 0 <= k < |item| ==> item[k].0 != key) ==> v == ""
    ensures (exists k :: 0 <= k < |item| && item[k].0 == key) ==> (key, v) in item
    decreases |item|
  {
    if |item| == 0 then ""
    else if item[0].0 == key then item[0].1
    else
      var v := FieldValue(item[1..], key);
      assert forall k :: 1 <= k < |item| ==> item[k] == item[1..][k - 1];
      v
  }

  // -----------------------------------------------------------------------
  // The key set, in insertion order

  /** allKeys.add(k) on a Set kept as the sequence of its elements in
      insertion order. */
  function AddKey(acc: seq<string>, k: string): seq<string> {
    if k in acc then acc else acc + [k]
  }

  /** Adding the keys ks one after another. */
  function AddKeys(acc: seq<string>, ks: seq<string>): seq<string>
    decreases |ks|
  {
    if |ks| == 0 then acc else AddKey(AddKeys(acc, ks[..|ks| - 1]), ks[|ks| - 1])
  }

  /** The header: the keys of all records, each once, first seen first. */
  function Header(data: seq<Record>): seq<string>
    decreases |data|
  {
    if |data| == 0 then [] else AddKeys(Header(data[..|data| - 1]), Keys(data[|data| - 1]))
  }

  /** All keys of all records in order, repetitions included. */
  function AllKeys(data: seq<Record>): seq<string>
    decreases |data|
  {
    if |data| == 0 then [] else AllKeys(data[..|data| - 1]) + Keys(data[|data| - 1])
  }

  /** xs with every repetition of an element dropped. */
  function Dedup(xs: seq<string>): seq<string> {
    AddKeys([], xs)
  }

  // -----------------------------------------------------------------------
  // Fields, rows and the whole text

  /** The quotes of v doubled: String(value).replace(/"/g, '""'). */
  function Escape(v: string): (r: string)
    decreases |v|
  {
    if |v| == 0 then ""
    else (if v[0] == '"' then "\"\"" else [v[0]]) + Escape(v[1..])
  }

  function Quote(v: string): string {
    "\"" + Escape(v) + "\""
  }

  /** The quoted fields of one record, one per header key. */
  function Fields(headers: seq<string>, item: Record): (r: seq<string>)
    ensures |r| == |headers|
    ensures forall k :: 0 <= k < |headers| ==> r[k] == Quote(FieldValue(item, headers[k]))
  {
    seq(|headers|, k requires 0 <= k < |headers| => Quote(FieldValue(item, headers[k])))
  }

  function Row(headers: seq<string>, item: Record): string {
    Join(Fields(headers, item), ";")
  }

  function Rows(headers: seq<string>, data: seq<Record>): (r: seq<string>)
    ensures |r| == |data|
    ensures forall i :: 0 <= i < |data| ==> r[i] == Row(headers, data[i])
  {
    seq(|data|, i requires 0 <= i < |data| => Row(headers, data[i]))
  }

  /** The text convertToCSV returns. */
  function Csv(data: seq<Record>): string {
    if |data| == 0 then ""
    else Join([Join(Header(data), ";")] + Rows(Header(data), data), "\n")
  }

  // -----------------------------------------------------------------------
  // The program

  /** The first forEach of convertToCSV: every key of every record added
      to the key set. */
  method CollectKeys(data: seq<Record>) returns (allKeys: seq<string>)
    ensures allKeys == Header(data)
  {
    allKeys := [];
    var i := 0;
    while i < |data|
      invariant 0 <= i <= |data|
      invariant allKeys == Header(data[..i])
    {
      var keys := Keys(data[i]);
      var j := 0;
      while j < |keys|
        invariant 0 <= j <= |keys|
        invariant allKeys == AddKeys(Header(data[..i]), keys[..j])
      {
        assert keys[..j + 1][..j] == keys[..j];
        allKeys := AddKey(allKeys, keys[j]);
        j := j + 1;
      }
      assert keys[..j] == keys;
      assert data[..i + 1][..i] == data[..i];
      i := i + 1;
    }
    assert data[..i] == data;
  }

  /** The inner map of convertToCSV: one quoted field per header key. */
  method QuoteFields(headers: seq<string>, item: Record) returns (row: seq<string>)
    ensures row == Fields(headers, item)
  {
    row := [];
    var j := 0;
    while j < |headers|
      invariant 0 <= j <= |headers|
      invariant row == Fields(headers[..j], item)
    {
      row := row + [Quote(FieldValue(item, headers[j]))];
      j := j + 1;
    }
    assert headers[..j] == headers;
  }

  /** convertToCSV(data): the key set, then the header line and one row
      per record, joined by line breaks. */
  method ConvertToCsv(data: seq<Record>) returns (csv: string)
    ensures csv == Csv(data)
    ensures |data| == 0 ==> csv == ""
  {
    if |data| == 0 {
      return "";
    }
    var headers := CollectKeys(data);
    var csvRows := [Join(headers, ";")];
    var i := 0;
    while i < |data|
      invariant 0 <= i <= |data|
      invariant csvRows == [Join(headers, ";")] + Rows(headers, data[..i])
    {
      var row := QuoteFields(headers, data[i]);
      csvRows := csvRows + [Join(row, ";")];
      assert Rows(headers, data[..i + 1]) == Rows(headers, data[..i]) + [Row(headers, data[i])];
      i := i + 1;
    }
    assert data[..i] == data;
    csv := Join(csvRows, "\n");
  }

  // -----------------------------------------------------------------------
  // The header

  predicate Distinct(xs: seq<string>) {
    forall i, j :: 0 <= i < j < |xs| ==> xs[i] != xs[j]
  }

  /** Every later element of ds occurs in xs only after an occurrence of
      every earlier one: ds lists the elements of xs in first-seen order. */
  predicate FirstSeenOrder(xs: seq<string>, ds: seq<string>) {
    forall i, j, p :: 0 <= i < j < |ds| && 0 <= p < |xs| && xs[p] == ds[j] ==> ds[i] in xs[..p]
  }

  lemma {:induction false} AddKeysConcat(acc: seq<string>, a: seq<string>, b: seq<string>)
    ensures AddKeys(AddKeys(acc, a), b) == AddKeys(acc, a + b)
    decreases |b|
  {
    if |b| == 0 {
      assert a + b == a;
    } else {
      var b' := b[..|b| - 1];
      AddKeysConcat(acc, a, b');
      assert (a + b)[..|a + b| - 1] == a + b';
    }
  }

  /** The header is the deduplicated stream of all keys. */
  lemma {:induction false} HeaderIsDedup(data: seq<Record>)
    ensures Header(data) == Dedup(AllKeys(data))
    decreases |data|
  {
    if |data| > 0 {
      var d' := data[..|data| - 1];
      HeaderIsDedup(d');
      AddKeysConcat([], AllKeys(d'), Keys(data[|data| - 1]));
    }
  }

  /** Deduplication keeps each element once, loses none, adds none, and
      keeps first-seen order. */
  lemma {:induction false} DedupFacts(xs: seq<string>)
    ensures Distinct(Dedup(xs))
    ensures forall x :: x in Dedup(xs) <==> x in xs
    ensures FirstSeenOrder(xs, Dedup(xs))
    decreases |xs|
  {
    if |xs| > 0 {
      var p := xs[..|xs| - 1];
      var y := xs[|xs| - 1];
      DedupFacts(p);
      assert xs == p + [y];
      var d := Dedup(p);
      assert Dedup(xs) == AddKey(d, y);
      forall i, j, q | 0 <= i < j < |Dedup(xs)| && 0 <= q < |xs| && xs[q] == Dedup(xs)[j]
        ensures Dedup(xs)[i] in xs[..q]
      {
        if q < |p| {
          assert xs[..q] == p[..q];
        } else {
          assert xs[..q] == p;
        }
      }
    }
  }

  /** The header holds every key of every record exactly once, only keys
      of records, in the order the keys are first seen. */
  lemma HeaderKeys(data: seq<Record>)
    ensures Distinct(Header(data))
    ensures forall i, k :: 0 <= i < |data| && 0 <= k < |data[i]| ==> data[i][k].0 in Header(data)
    ensures forall h :: h in Header(data) ==> exists i, k :: 0 <= i < |data| && 0 <= k < |data[i]| && data[i][k].0 == h
    ensures FirstSeenOrder(AllKeys(data), Header(data))
  {
    HeaderIsDedup(data);
    DedupFacts(AllKeys(data));
    AllKeysMembers(data);
  }

  lemma {:induction false} AllKeysMembers(data: seq<Record>)
    ensures forall h :: h in AllKeys(data) <==> exists i, k :: 0 <= i < |data| && 0 <= k < |data[i]| && data[i][k].0 == h
    decreases |data|
  {
    if |data| > 0 {
      var d' := data[..|data| - 1];
      var last := data[|data| - 1];
      AllKeysMembers(d');
      forall h ensures h in AllKeys(data) <==> exists i, k :: 0 <= i < |data| && 0 <= k < |data[i]| && data[i][k].0 == h {
        if h in AllKeys(data) {
          if h in AllKeys(d') {
            var i, k :| 0 <= i < |d'| && 0 <= k < |d'[i]| && d'[i][k].0 == h;
            assert data[i] == d'[i];
          } else {
            var k :| 0 <= k < |Keys(last)| && Keys(last)[k] == h;
            assert data[|data| - 1][k].0 == h;
          }
        }
        if exists i, k :: 0 <= i < |data| && 0 <= k < |data[i]| && data[i][k].0 == h {
          var i, k :| 0 <= i < |data| && 0 <= k < |data[i]| && data[i][k].0 == h;
          if i < |d'| {
            assert d'[i] == data[i];
          } else {
            assert Keys(last)[k] == h;
          }
        }
      }
    }
  }

  /** With keys free of ';', splitting the header line on ';' gives the
      header back. */
  lemma HeaderLineSplits(data: seq<Record>)
    requires |Header(data)| > 0
    requires forall h :: h in Header(data) ==> ';' !in h
    ensures Split(Join(Header(data), ";"), ';') == Header(data)
  {
    SplitJoin(Header(data), ';');
  }

  // -----------------------------------------------------------------------
  // Reading the fields back

  /** Reads the inside of a quoted field up to its closing quote, taking a
      doubled quote as one quote; yields the value and what follows the
      closing quote. */
  function ReadQuoted(s: string): (r: Option<(string, string)>)
    ensures r.Some? ==> |r.value.1| < |s|
    decreases |s|
  {
    if |s| == 0 then None
    else if s[0] == '"' then
      if |s| >= 2 && s[1] == '"' then
        match ReadQuoted(s[2..])
        case None => None
        case Some(p) => Some(("\"" + p.0, p.1))
      else Some(("", s[1..]))
    else
      match ReadQuoted(s[1..])
      case None => None
      case Some(p) => Some(([s[0]] + p.0, p.1))
  }

  /** Unescaping recovers the value: the escaped text followed by a
      closing quote reads back as the original value. */
  lemma {:induction false} ReadEscaped(v: string, rest: string)
    requires rest == [] || rest[0] != '"'
    ensures ReadQuoted(Escape(v) + "\"" + rest) == Some((v, rest))
    decreases |v|
  {
    var s := Escape(v) + "\"" + rest;
    if |v| == 0 {
      assert s == "\"" + rest;
      assert s[1..] == rest;
    } else if v[0] == '"' {
      ReadEscaped(v[1..], rest);
      assert s[2..] == Escape(v[1..]) + "\"" + rest;
      assert "\"" + v[1..] == v;
    } else {
      ReadEscaped(v[1..], rest);
      assert s[1..] == Escape(v[1..]) + "\"" + rest;
      assert [v[0]] + v[1..] == v;
    }
  }

  /** Reads ';'-separated quoted fields; the empty line has no fields. */
  function ParseFields(s: string): Option<seq<string>> {
    if s == [] then Some([]) else ParseFieldList(s)
  }

  function ParseFieldList(s: string): Option<seq<string>>
    decreases |s|
  {
    if |s| == 0 || s[0] != '"' then None
    else
      match ReadQuoted(s[1..])
      case None => None
      case Some(p) =>
        if p.1 == [] then Some([p.0])
        else if p.1[0] == ';' then
          match ParseFieldList(p.1[1..])
          case None => None
          case Some(vs) => Some([p.0] + vs)
        else None
  }

  /** A quoted field followed by nothing or by ';' is read as its value,
      then the rest of the line after the ';'. */
  lemma ParseFirstField(v: string, rest: string)
    requires rest == [] || rest[0] == ';'
    ensures ParseFieldList(Quote(v) + rest)
         == if rest == [] then Some([v])
            else match ParseFieldList(rest[1..])
                 case None => None
                 case Some(vs) => Some([v] + vs)
  {
    var s := Quote(v) + rest;
    ReadEscaped(v, rest);
    assert s[1..] == Escape(v) + "\"" + rest;
  }

  lemma {:induction false} ParseQuotedList(vs: seq<string>)
    requires |vs| >= 1
    ensures ParseFieldList(Join(seq(|vs|, k requires 0 <= k < |vs| => Quote(vs[k])), ";")) == Some(vs)
    decreases |vs|
  {
    var qs := seq(|vs|, k requires 0 <= k < |vs| => Quote(vs[k]));
    if |vs| == 1 {
      assert Join(qs, ";") == Quote(vs[0]) + "";
      ParseFirstField(vs[0], "");
      assert [vs[0]] == vs;
    } else {
      var tail := vs[1..];
      var qt := seq(|tail|, k requires 0 <= k < |tail| => Quote(tail[k]));
      assert qs[1..] == qt;
      var rest := ";" + Join(qt, ";");
      assert Join(qs, ";") == Quote(vs[0]) + rest;
      ParseFirstField(vs[0], rest);
      assert rest[1..] == Join(qt, ";");
      ParseQuotedList(tail);
      assert [vs[0]] + tail == vs;
    }
  }

  /** Every row reads back as exactly one value per header key: the
      record's own value for a key it has and "" for a key it lacks. */
  lemma RowRoundTrip(headers: seq<string>, item: Record)
    ensures ParseFields(Row(headers, item)) == Some(seq(|headers|, k requires 0 <= k < |headers| => FieldValue(item, headers[k])))
  {
    var vs := seq(|headers|, k requires 0 <= k < |headers| => FieldValue(item, headers[k]));
    if |headers| > 0 {
      assert Fields(headers, item) == seq(|vs|, k requires 0 <= k < |vs| => Quote(vs[k]));
      ParseQuotedList(vs);
      assert Row(headers, item) != [] by {
        assert Row(headers, item)[0] == '"' by { QuoteJoinStartsWithQuote(Fields(headers, item)); }
      }
    }
  }

  lemma QuoteJoinStartsWithQuote(qs: seq<string>)
    requires |qs| >= 1 && |qs[0]| >= 1 && qs[0][0] == '"'
    ensures |Join(qs, ";")| >= 1 && Join(qs, ";")[0] == '"'
  {
  }

  // -----------------------------------------------------------------------
  // Lines

  lemma {:induction false} EscapeAvoids(v: string, c: char)
    requires c != '"' && c !in v
    ensures c !in Escape(v)
    decreases |v|
  {
    if |v| > 0 {
      EscapeAvoids(v[1..], c);
    }
  }

  predicate NoNewline(data: seq<Record>) {
    forall i, k :: 0 <= i < |data| && 0 <= k < |data[i]| ==> '\n' !in data[i][k].0 && '\n' !in data[i][k].1
  }

  lemma RowAvoidsNewline(headers: seq<string>, item: Record)
    requires forall h :: h in headers ==> '\n' !in h
    requires forall k :: 0 <= k < |item| ==> '\n' !in item[k].1
    ensures '\n' !in Row(headers, item)
  {
    var fs := Fields(headers, item);
    forall k | 0 <= k < |fs| ensures '\n' !in fs[k] {
      var v := FieldValue(item, headers[k]);
      if exists m :: 0 <= m < |item| && item[m].0 == headers[k] {
        var m :| 0 <= m < |item| && item[m] == (headers[k], v);
      }
      EscapeAvoids(v, '\n');
    }
    JoinAvoids(fs, ";", '\n');
  }

  /** Without line breaks in the keys, no header key has one. */
  lemma HeaderKeysAvoidNewline(data: seq<Record>)
    requires NoNewline(data)
    ensures forall x :: x in Header(data) ==> '\n' !in x
  {
    HeaderKeys(data);
    forall x | x in Header(data) ensures '\n' !in x {
      var i, k :| 0 <= i < |data| && 0 <= k < |data[i]| && data[i][k].0 == x;
    }
  }

  /** Without line breaks in the keys, the header line has none. */
  lemma HeaderAvoidsNewline(data: seq<Record>)
    requires NoNewline(data)
    ensures '\n' !in Join(Header(data), ";")
  {
    var h := Header(data);
    HeaderKeysAvoidNewline(data);
    JoinAvoids(h, ";", '\n');
  }

  /** Without line breaks in the data, no row has one. */
  lemma RowsAvoidNewline(data: seq<Record>)
    requires NoNewline(data)
    ensures forall i :: 0 <= i < |data| ==> '\n' !in Row(Header(data), data[i])
  {
    var h := Header(data);
    HeaderKeysAvoidNewline(data);
    forall i | 0 <= i < |data| ensures '\n' !in Row(h, data[i]) {
      RowAvoidsNewline(h, data[i]);
    }
  }

  /** When no key or value contains a line break, the text has exactly
      one line more than there are records: the header line, then each
      record's row in input order. */
  lemma CsvLines(data: seq<Record>)
    requires |data| > 0
    requires NoNewline(data)
    ensures var lines := Split(Csv(data), '\n');
      && |lines| == |data| + 1
      && lines[0] == Join(Header(data), ";")
      && forall i :: 0 <= i < |data| ==> lines[i + 1] == Row(Header(data), data[i])
  {
    var h := Header(data);
    var lines := [Join(h, ";")] + Rows(h, data);
    HeaderAvoidsNewline(data);
    RowsAvoidNewline(data);
    forall i | 0 <= i < |lines| ensures '\n' !in lines[i] {
      if i > 0 {
        assert lines[i] == Row(h, data[i - 1]);
      }
    }
    assert Csv(data) == Join(lines, "\n");
    SplitJoin(lines, '\n');
  }
}
