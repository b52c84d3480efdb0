/** The message log of JS/ui.js: a list of entries shown newest first and
    kept to at most 50, a text filter that hides the entries not matching a
    search string, and the extraction of the data entries as records for
    export. The DOM list is modelled as the sequence of its entries, each
    reduced to its class, what it displays and whether it is hidden. */
module UiLog {
  import opened Basics
  import opened JsonValue
  import Csv

  const MaxMessages: nat := 50

  // -----------------------------------------------------------------------
  // Entries

  /** What an entry displays: a <pre> text, or the items of a data list,
      each the text of its <strong> label and of its <span> value. */
  datatype Body = Text(text: string) | Items(items: seq<(string, string)>)

  datatype Entry = Entry(className: string, body: Body, hidden: bool)

  /** What addMessageToLog is given: a string, or a parsed payload. */
  datatype LogMessage = Say(text: string) | Payload(data: Json)

  /** classList.contains('data-message'), for the single class the
      callers pass. */
  predicate IsData(e: Entry) { e.className == "data-message" }

  /** What preElement.textContent = message shows: the string itself,
      "" for null (the setter takes null as the empty string), and
      String(message) otherwise. */
  function MessageText(m: LogMessage): string {
    match m
    case Say(t) => t
    case Payload(Null) => ""
    case Payload(Primitive(t)) => t
    case Payload(Object(_, t, _)) => t
  }

  /** The conversions addMessageToLog makes of a payload logged as data
      throw: new Date(message.ts) for a truthy ts, or the template
      `${message[key]}` for a shown field. */
  predicate ConversionThrows(fields: seq<(string, Value)>) {
    || (var ts := Lookup(fields, "ts"); ts.Some? && ts.value.truthy && ts.value.convertThrows)
    || (exists i :: 0 <= i < |fields| && fields[i].0 != "ts" && fields[i].1.convertThrows)
  }

  /** addMessageToLog throws a TypeError before adding anything: a null
      payload logged as data (reading message.ts of null), an object
      logged as data whose timestamp or a shown value cannot be converted,
      and an object shown in a <pre> whose String throws. */
  predicate ThrowsOnAdd(m: LogMessage, className: string) {
    && m.Payload?
    && if className == "data-message" && !m.data.Primitive? then
         m.data.Null? || ConversionThrows(m.data.fields)
       else m.data.Object? && m.data.textThrows
  }

  /** The fields shown for a payload: every own key except ts, with
      String(value). */
  function ShownFields(fields: seq<(string, Value)>): (r: seq<(string, string)>)
    ensures |r| <= |fields|
    ensures forall i :: 0 <= i < |r| ==> r[i].0 != "ts"
    decreases |fields|
  {
    if |fields| == 0 then []
    else if fields[0].0 == "ts" then ShownFields(fields[1..])
    else [(fields[0].0, fields[0].1.text)] + ShownFields(fields[1..])
  }

  /** The timestamp shown for a payload: its ts field in the locale's
      format (given as a function), or N/A when ts is missing or falsy. */
  function TimestampText(fields: seq<(string, Value)>, locale: Value -> string): string {
    match Lookup(fields, "ts")
    case Some(v) => if v.truthy then locale(v) else "N/A"
    case None => "N/A"
  }

  /** Each shown field as its "key:" label and its value. */
  function Labelled(sf: seq<(string, string)>): (r: seq<(string, string)>)
    ensures |r| == |sf|
    ensures forall i :: 0 <= i < |sf| ==> r[i] == (sf[i].0 + ":", sf[i].1)
  {
    seq(|sf|, i requires 0 <= i < |sf| => (sf[i].0 + ":", sf[i].1))
  }

  /** The items of a data list: the timestamp first, then "key:" and the
      value of every shown field. */
  function DataItems(fields: seq<(string, Value)>, locale: Value -> string): (r: seq<(string, string)>)
    ensures |r| == 1 + |ShownFields(fields)|
    ensures r[0] == ("Timestamp:", TimestampText(fields, locale))
    ensures r[1..] == Labelled(ShownFields(fields))
  {
    [("Timestamp:", TimestampText(fields, locale))] + Labelled(ShownFields(fields))
  }

  /** The entry addMessageToLog builds: a data list for an object logged
      as data, a <pre> with String(message) otherwise. */
  function MakeEntry(m: LogMessage, className: string, locale: Value -> string): (e: Entry)
    requires !ThrowsOnAdd(m, className)
    ensures e.className == className && !e.hidden
    ensures e.body.Items? <==> className == "data-message" && m.Payload? && m.data.Object?
    ensures e.body.Text? ==> e.body.text == MessageText(m)
  {
    if className == "data-message" && m.Payload? && m.data.Object? then
      Entry(className, Items(DataItems(m.data.fields, locale)), false)
    else
      Entry(className, Text(MessageText(m)), false)
  }

  /** The element's textContent: the text of a <pre>, or the items'
      texts one after another, each "label value". */
  function ItemsText(items: seq<(string, string)>): string
    decreases |items|
  {
    if |items| == 0 then "" else items[0].0 + " " + items[0].1 + ItemsText(items[1..])
  }

  function TextContent(e: Entry): string {
    match e.body
    case Text(t) => t
    case Items(items) => ItemsText(items)
  }

  // -----------------------------------------------------------------------
  // The 50-entry cap

  /** The tail of the list removed one entry at a time until at most
      MaxMessages remain. */
  method DropOldest<T>(log: seq<T>) returns (kept: seq<T>)
    ensures |kept| == Min(|log|, MaxMessages)
    ensures kept == log[..|kept|]
  {
    kept := log;
    while |kept| > MaxMessages
      invariant |kept| >= Min(|log|, MaxMessages)
      invariant kept == log[..|kept|]
      decreases |kept|
    {
      kept := kept[..|kept| - 1];
    }
  }

  // -----------------------------------------------------------------------
  // The filter

  /** Whether filterLog(search) leaves entry e displayed. */
  predicate ShownBy(e: Entry, search: string) {
    var needle := ToLower(search);
    needle == "" || Contains(ToLower(TextContent(e)), needle)
  }

  /** The empty search shows every entry. */
  lemma EmptySearchShowsAll(e: Entry)
    ensures ShownBy(e, "")
  {
    assert ToLower("") == "";
  }

  /** A non-empty search shows an entry exactly when the lower-cased
      search string occurs somewhere in the entry's lower-cased text. */
  lemma ShownIffOccurs(e: Entry, search: string)
    requires search != ""
    ensures ShownBy(e, search) <==> exists i :: OccursAt(ToLower(TextContent(e)), ToLower(search), i)
  {
    ContainsIff(ToLower(TextContent(e)), ToLower(search));
  }

  /** The case of the search string does not matter. */
  lemma SearchCaseInsensitive(e: Entry, search: string)
    ensures ShownBy(e, search) <==> ShownBy(e, ToLower(search))
  {
    ToLowerIdempotent(search);
  }

  /** filterLog's forEach: every entry's display set from the rule. */
  method ApplyFilter(entries: seq<Entry>, search: string) returns (r: seq<Entry>)
    ensures |r| == |entries|
    ensures forall k :: 0 <= k < |entries| ==> r[k] == entries[k].(hidden := !ShownBy(entries[k], search))
  {
    var lower := ToLower(search);
    r := entries;
    var k := 0;
    while k < |r|
      invariant 0 <= k <= |r| && |r| == |entries|
      invariant forall j :: 0 <= j < k ==> r[j] == entries[j].(hidden := !ShownBy(entries[j], search))
      invariant forall j :: k <= j < |r| ==> r[j] == entries[j]
    {
      var shown := lower == "" || Contains(ToLower(TextContent(r[k])), lower);
      r := r[k := r[k].(hidden := !shown)];
      k := k + 1;
    }
  }

  // -----------------------------------------------------------------------
  // Export: getLogData

  /** The text of a label up to its first ':' and after it, without it:
      replace(':', ''). */
  function RemoveFirstColon(s: string): string
    decreases |s|
  {
    if |s| == 0 then ""
    else if s[0] == ':' then s[1..]
    else [s[0]] + RemoveFirstColon(s[1..])
  }

  /** The key getLogData reads from a label. */
  function KeyOfLabel(tag: string): string {
    Trim(RemoveFirstColon(tag))
  }

  /** The one key a plain object does not store as an own field. */
  const ProtoKey: string := "__proto__"

  /** One more than the largest array index: 2^32 - 1. */
  const ArrayIndexLimit: nat := 0xFFFF_FFFF

  predicate AllDigits(s: string) {
    forall i :: 0 <= i < |s| ==> '0' <= s[i] <= '9'
  }

  /** The number a string of decimal digits denotes. */
  function DigitsValue(s: string): nat
    requires AllDigits(s)
    decreases |s|
  {
    if |s| == 0 then 0 else DigitsValue(s[..|s| - 1]) * 10 + (s[|s| - 1] as int - '0' as int)
  }

  /** An array index: the canonical decimal form of an integer below
      2^32 - 1. An object lists such keys first, in ascending numeric
      order, and its other string keys after them in the order they were
      added (OrdinaryOwnPropertyKeys, section 10.1.11.1 of ECMA-262). */
  predicate IsArrayIndex(k: string) {
    && |k| > 0 && AllDigits(k) && (k[0] == '0' ==> |k| == 1)
    && DigitsValue(k) < ArrayIndexLimit
  }

  /** Both keys are array indices and a has the smaller number. */
  predicate IndexBefore(a: string, b: string) {
    IsArrayIndex(a) && IsArrayIndex(b) && DigitsValue(a) < DigitsValue(b)
  }

  /** data[key] = value on a record kept in Object.keys order. A present
      key keeps its place and takes the new value; a new array index goes
      among the array indices by its number; any other new key goes last.
      For the key __proto__ the assignment runs the setter inherited from
      Object.prototype, which ignores a value that is not an object, so a
      string adds nothing. */
  function SetField(rec: Csv.Record, key: string, value: string): (r: Csv.Record) {
    if key == ProtoKey then rec
    else if key in RecordKeys(rec) then Replace(rec, key, value)
    else if IsArrayIndex(key) then InsertIndex(rec, key, value)
    else rec + [(key, value)]
  }

  /** The first pair with the key takes the new value. */
  function Replace(rec: Csv.Record, key: string, value: string): Csv.Record
    decreases |rec|
  {
    if |rec| == 0 then []
    else if rec[0].0 == key then [(key, value)] + rec[1..]
    else [rec[0]] + Replace(rec[1..], key, value)
  }

  /** The pair goes after the array indices of smaller number. */
  function InsertIndex(rec: Csv.Record, key: string, value: string): Csv.Record
    decreases |rec|
  {
    if |rec| == 0 || !IndexBefore(rec[0].0, key) then [(key, value)] + rec
    else [rec[0]] + InsertIndex(rec[1..], key, value)
  }

  /** Each item as the key and value getLogData reads from it. */
  function ReadItems(items: seq<(string, string)>): (r: Csv.Record)
    ensures |r| == |items|
    ensures forall i :: 0 <= i < |items| ==> r[i] == (KeyOfLabel(items[i].0), items[i].1)
  {
    seq(|items|, i requires 0 <= i < |items| => (KeyOfLabel(items[i].0), items[i].1))
  }

  /** data[key] = value for each pair in turn, starting from {}. */
  function Assemble(pairs: Csv.Record): Csv.Record
    decreases |pairs|
  {
    if |pairs| == 0 then []
    else SetField(Assemble(pairs[..|pairs| - 1]), pairs[|pairs| - 1].0, pairs[|pairs| - 1].1)
  }

  /** The record rebuilt from a data list, item by item. */
  function BuildRecord(items: seq<(string, string)>): Csv.Record {
    Assemble(ReadItems(items))
  }

  /** The record getLogData makes of one data entry. An entry logged as
      data that shows a <pre> has no list items and gives {}. */
  function RecordOf(e: Entry): Csv.Record {
    match e.body
    case Text(_) => []
    case Items(items) => BuildRecord(items)
  }

  /** The records of the data entries, in log order: the entries that are
      not data give nothing. */
  function Compact(rs: seq<Option<Csv.Record>>): (r: seq<Csv.Record>)
    decreases |rs|
  {
    if |rs| == 0 then []
    else (if rs[0].Some? then [rs[0].value] else []) + Compact(rs[1..])
  }

  function Reverse<T>(s: seq<T>): (r: seq<T>)
    ensures |r| == |s|
    ensures forall i :: 0 <= i < |s| ==> r[i] == s[|s| - 1 - i]
  {
    seq(|s|, i requires 0 <= i < |s| => s[|s| - 1 - i])
  }

  /** getLogData on the list: map every entry to its record or null,
      drop the nulls, reverse. */
  function LogData(entries: seq<Entry>): seq<Csv.Record> {
    Reverse(Compact(seq(|entries|, i requires 0 <= i < |entries| =>
      if IsData(entries[i]) then Some(RecordOf(entries[i])) else None)))
  }

  /** The number of data entries. */
  function DataCount(entries: seq<Entry>): nat
    decreases |entries|
  {
    if |entries| == 0 then 0 else (if IsData(entries[0]) then 1 else 0) + DataCount(entries[1..])
  }

  /** A new entry goes to the front of the list and its record, if it is
      a data entry, to the back of the export: getLogData lists the data
      entries oldest first and drops every other entry. */
  lemma LogDataPrepend(e: Entry, entries: seq<Entry>)
    ensures LogData([e] + entries) == LogData(entries) + (if IsData(e) then [RecordOf(e)] else [])
  {
    var es := [e] + entries;
    var m := seq(|es|, i requires 0 <= i < |es| => if IsData(es[i]) then Some(RecordOf(es[i])) else None);
    var m' := seq(|entries|, i requires 0 <= i < |entries| => if IsData(entries[i]) then Some(RecordOf(entries[i])) else None);
    assert m[1..] == m';
    assert Compact(m) == (if IsData(e) then [RecordOf(e)] else []) + Compact(m');
    ReverseConcat(if IsData(e) then [RecordOf(e)] else [], Compact(m'));
  }

  lemma ReverseConcat<T>(a: seq<T>, b: seq<T>)
    ensures Reverse(a + b) == Reverse(b) + Reverse(a)
  {
  }

  /** getLogData yields one record per data entry and nothing else. */
  lemma {:induction false} LogDataCount(entries: seq<Entry>)
    ensures |LogData(entries)| == DataCount(entries)
    decreases |entries|
  {
    if |entries| > 0 {
      LogDataCount(entries[1..]);
      LogDataPrepend(entries[0], entries[1..]);
      assert [entries[0]] + entries[1..] == entries;
    }
  }

  function RecordKeys(rec: Csv.Record): seq<string> {
    seq(|rec|, i requires 0 <= i < |rec| => rec[i].0)
  }

  /** The pairs of rec whose key is not key, in order. */
  function Without(rec: Csv.Record, key: string): (r: Csv.Record)
    ensures |r| <= |rec|
    decreases |rec|
  {
    if |rec| == 0 then []
    else (if rec[0].0 == key then [] else [rec[0]]) + Without(rec[1..], key)
  }

  lemma {:induction false} WithoutSnoc(rec: Csv.Record, x: (string, string), key: string)
    ensures Without(rec + [x], key) == Without(rec, key) + (if x.0 == key then [] else [x])
    decreases |rec|
  {
    var r := rec + [x];
    if |rec| == 0 {
      assert r == [x] && r[1..] == [];
    } else {
      assert r[0] == rec[0] && r[1..] == rec[1..] + [x];
      WithoutSnoc(rec[1..], x, key);
    }
  }

  lemma {:induction false} WithoutKeys(rec: Csv.Record, key: string, other: string)
    requires other !in RecordKeys(rec)
    ensures other !in RecordKeys(Without(rec, key))
    decreases |rec|
  {
    if |rec| > 0 {
      assert RecordKeys(rec)[0] == rec[0].0;
      assert RecordKeys(rec[1..]) == RecordKeys(rec)[1..];
      WithoutKeys(rec[1..], key, other);
      var h := if rec[0].0 == key then [] else [rec[0]];
      assert RecordKeys(h + Without(rec[1..], key)) == RecordKeys(h) + RecordKeys(Without(rec[1..], key));
    }
  }

  /** A record without the key keeps every pair. */
  lemma {:induction false} WithoutKeepsAll(rec: Csv.Record, key: string)
    requires key !in RecordKeys(rec)
    ensures Without(rec, key) == rec
    decreases |rec|
  {
    if |rec| > 0 {
      assert RecordKeys(rec)[0] == rec[0].0;
      assert RecordKeys(rec[1..]) == RecordKeys(rec)[1..];
      WithoutKeepsAll(rec[1..], key);
      assert [rec[0]] + rec[1..] == rec;
    }
  }

  // -----------------------------------------------------------------------
  // Object.keys order

  /** rec is in Object.keys order: an array-index key comes after array
      indices of smaller number only. */
  predicate KeyOrdered(rec: Csv.Record) {
    forall i, j :: 0 <= i < j < |rec| && IsArrayIndex(rec[j].0) ==> IndexBefore(rec[i].0, rec[j].0)
  }

  /** The pairs whose key is not an array index, in order. */
  function NonIndex(rec: Csv.Record): (r: Csv.Record)
    decreases |rec|
  {
    if |rec| == 0 then []
    else (if IsArrayIndex(rec[0].0) then [] else [rec[0]]) + NonIndex(rec[1..])
  }

  /** rec holds exactly the pairs of pairs, listed as Object.keys lists
      them: the array indices first, in ascending numeric order, then the
      other keys in the order pairs has them. */
  predicate InKeyOrder(rec: Csv.Record, pairs: Csv.Record) {
    KeyOrdered(rec) && multiset(rec) == multiset(pairs) && NonIndex(rec) == NonIndex(pairs)
  }

  lemma {:induction false} NonIndexConcat(a: Csv.Record, b: Csv.Record)
    ensures NonIndex(a + b) == NonIndex(a) + NonIndex(b)
    decreases |a|
  {
    if |a| == 0 {
      assert a + b == b;
    } else {
      assert (a + b)[0] == a[0] && (a + b)[1..] == a[1..] + b;
      NonIndexConcat(a[1..], b);
    }
  }

  lemma NonIndexSingle(x: (string, string))
    ensures NonIndex([x]) == if IsArrayIndex(x.0) then [] else [x]
  {
    assert [x][1..] == [];
  }

  /** A record without array indices is all NonIndex. */
  lemma {:induction false} NonIndexAll(rec: Csv.Record)
    requires forall i :: 0 <= i < |rec| ==> !IsArrayIndex(rec[i].0)
    ensures NonIndex(rec) == rec
    decreases |rec|
  {
    if |rec| > 0 {
      NonIndexAll(rec[1..]);
      assert [rec[0]] + rec[1..] == rec;
    }
  }

  lemma OrderedCons(x: (string, string), r: Csv.Record)
    ensures KeyOrdered([x] + r) <==>
      KeyOrdered(r) && forall j :: 0 <= j < |r| && IsArrayIndex(r[j].0) ==> IndexBefore(x.0, r[j].0)
  {
    var t := [x] + r;
    if KeyOrdered(t) {
      forall i, j | 0 <= i < j < |r| && IsArrayIndex(r[j].0) ensures IndexBefore(r[i].0, r[j].0) {
        assert t[i + 1] == r[i] && t[j + 1] == r[j];
      }
      forall j | 0 <= j < |r| && IsArrayIndex(r[j].0) ensures IndexBefore(x.0, r[j].0) {
        assert t[0] == x && t[j + 1] == r[j];
      }
    }
    if KeyOrdered(r) && forall j :: 0 <= j < |r| && IsArrayIndex(r[j].0) ==> IndexBefore(x.0, r[j].0) {
      forall i, j | 0 <= i < j < |t| && IsArrayIndex(t[j].0) ensures IndexBefore(t[i].0, t[j].0) {
        if i == 0 {
          assert t[0] == x && t[j] == r[j - 1];
        } else {
          assert t[i] == r[i - 1] && t[j] == r[j - 1];
        }
      }
    }
  }

  /** A non-empty digit string not led by 0 denotes at least 1, and at
      least 10 when it has two digits or more. */
  lemma {:induction false} LeadingDigitBound(s: string)
    requires |s| > 0 && AllDigits(s) && s[0] != '0'
    ensures DigitsValue(s) >= 1
    ensures |s| >= 2 ==> DigitsValue(s) >= 10
    decreases |s|
  {
    if |s| >= 2 {
      LeadingDigitBound(s[..|s| - 1]);
    }
  }

  /** Two array indices with the same number are the same key. */
  lemma {:induction false} IndexValueInjective(a: string, b: string)
    requires IsArrayIndex(a) && IsArrayIndex(b) && DigitsValue(a) == DigitsValue(b)
    ensures a == b
    decreases |a|
  {
    if |a| >= 2 { LeadingDigitBound(a); }
    if |b| >= 2 { LeadingDigitBound(b); }
    if |a| == 1 && |b| == 1 {
      assert a == [a[0]] && b == [b[0]];
    } else if |a| >= 2 && |b| >= 2 {
      var pa, pb := a[..|a| - 1], b[..|b| - 1];
      assert pa[0] == a[0] && pb[0] == b[0];
      LeadingDigitBound(pa);
      LeadingDigitBound(pb);
      IndexValueInjective(pa, pb);
      assert a == pa + [a[|a| - 1]] && b == pb + [b[|b| - 1]];
    }
  }

  /** Different array indices have different numbers. */
  lemma IndexValueDistinct(a: string, b: string)
    requires IsArrayIndex(a) && IsArrayIndex(b) && a != b
    ensures DigitsValue(a) != DigitsValue(b)
  {
    if DigitsValue(a) == DigitsValue(b) {
      IndexValueInjective(a, b);
    }
  }

  /** Inserting an array index adds its pair. */
  lemma {:induction false} InsertIndexMultiset(rec: Csv.Record, key: string, value: string)
    ensures multiset(InsertIndex(rec, key, value)) == multiset(rec) + multiset{(key, value)}
    decreases |rec|
  {
    if |rec| > 0 && IndexBefore(rec[0].0, key) {
      InsertIndexMultiset(rec[1..], key, value);
      assert rec == [rec[0]] + rec[1..];
    }
  }

  /** Inserting an array index leaves the other keys as they were. */
  lemma {:induction false} InsertIndexNonIndex(rec: Csv.Record, key: string, value: string)
    requires IsArrayIndex(key)
    ensures NonIndex(InsertIndex(rec, key, value)) == NonIndex(rec)
    decreases |rec|
  {
    var r := InsertIndex(rec, key, value);
    if |rec| == 0 || !IndexBefore(rec[0].0, key) {
      assert r[0] == (key, value) && r[1..] == rec;
    } else {
      InsertIndexNonIndex(rec[1..], key, value);
      assert r[0] == rec[0] && r[1..] == InsertIndex(rec[1..], key, value);
    }
  }

  /** An array index put in front of the first key it does not follow
      keeps the record in key order. */
  lemma InsertFrontOrdered(rec: Csv.Record, key: string, value: string)
    requires IsArrayIndex(key) && KeyOrdered(rec)
    requires |rec| > 0 ==> !IndexBefore(rec[0].0, key) && rec[0].0 != key
    ensures KeyOrdered([(key, value)] + rec)
  {
    if |rec| > 0 {
      if IsArrayIndex(rec[0].0) {
        IndexValueDistinct(rec[0].0, key);
      }
      forall j | 0 <= j < |rec| && IsArrayIndex(rec[j].0) ensures IndexBefore(key, rec[j].0) {
        if j > 0 {
          assert IndexBefore(rec[0].0, rec[j].0);
        }
      }
    }
    OrderedCons((key, value), rec);
  }

  /** Inserting a new array index keeps the record in key order. */
  lemma {:induction false} InsertIndexOrdered(rec: Csv.Record, key: string, value: string)
    requires IsArrayIndex(key) && KeyOrdered(rec) && key !in RecordKeys(rec)
    ensures KeyOrdered(InsertIndex(rec, key, value))
    decreases |rec|
  {
    if |rec| > 0 {
      assert RecordKeys(rec)[0] == rec[0].0;
    }
    if |rec| == 0 || !IndexBefore(rec[0].0, key) {
      InsertFrontOrdered(rec, key, value);
    } else {
      var t := InsertIndex(rec[1..], key, value);
      assert rec == [rec[0]] + rec[1..];
      OrderedCons(rec[0], rec[1..]);
      assert RecordKeys(rec[1..]) == RecordKeys(rec)[1..];
      InsertIndexOrdered(rec[1..], key, value);
      InsertIndexMultiset(rec[1..], key, value);
      forall j | 0 <= j < |t| && IsArrayIndex(t[j].0) ensures IndexBefore(rec[0].0, t[j].0) {
        assert t[j] in multiset(t);
        if t[j] != (key, value) {
          assert t[j] in multiset(rec[1..]);
          var m :| 0 <= m < |rec[1..]| && rec[1..][m] == t[j];
          assert rec[m + 1] == t[j];
        }
      }
      OrderedCons(rec[0], t);
    }
  }

  /** Assigning a key the record lacks adds its pair: a key that is not
      an array index goes last, an array index wherever its number puts
      it, and __proto__ adds nothing. The record stays in key order. */
  lemma SetFieldNewKey(rec: Csv.Record, key: string, value: string)
    requires key !in RecordKeys(rec)
    ensures var r := SetField(rec, key, value);
      && (key == ProtoKey ==> r == rec)
      && (key != ProtoKey ==>
            && multiset(r) == multiset(rec) + multiset{(key, value)}
            && NonIndex(r) == NonIndex(rec) + (if IsArrayIndex(key) then [] else [(key, value)])
            && (KeyOrdered(rec) ==> KeyOrdered(r)))
      && (key != ProtoKey && !IsArrayIndex(key) ==> r == rec + [(key, value)])
  {
    if key != ProtoKey {
      if IsArrayIndex(key) {
        InsertIndexMultiset(rec, key, value);
        InsertIndexNonIndex(rec, key, value);
        if KeyOrdered(rec) {
          InsertIndexOrdered(rec, key, value);
        }
      } else {
        NonIndexConcat(rec, [(key, value)]);
        NonIndexSingle((key, value));
        var r := rec + [(key, value)];
        assert forall j :: 0 <= j < |rec| ==> r[j] == rec[j];
      }
    }
  }

  /** The keys of a record are among the keys of any record with the same
      pairs. */
  lemma SameMultisetKeys(a: Csv.Record, b: Csv.Record, k: string)
    requires multiset(a) == multiset(b) && k !in RecordKeys(b)
    ensures k !in RecordKeys(a)
  {
    forall i | 0 <= i < |a| ensures RecordKeys(a)[i] != k {
      assert a[i] in multiset(b);
      var j :| 0 <= j < |b| && b[j] == a[i];
      assert RecordKeys(b)[j] == a[i].0;
    }
  }

  /** One assignment of a key new to the pairs extends them by that
      pair, or by nothing for __proto__, and keeps key order. */
  lemma SetFieldStep(rec: Csv.Record, pairs: Csv.Record, x: (string, string))
    requires InKeyOrder(rec, pairs) && x.0 !in RecordKeys(pairs)
    ensures InKeyOrder(SetField(rec, x.0, x.1), pairs + (if x.0 == ProtoKey then [] else [x]))
  {
    SameMultisetKeys(rec, pairs, x.0);
    SetFieldNewKey(rec, x.0, x.1);
    if x.0 != ProtoKey {
      NonIndexConcat(pairs, [x]);
      NonIndexSingle(x);
    } else {
      assert pairs + [] == pairs;
    }
  }

  /** With distinct keys, assigning data[key] one pair at a time keeps
      every pair except one keyed __proto__, in Object.keys order. */
  lemma {:induction false} AssembleDistinct(pairs: Csv.Record)
    requires Distinct(RecordKeys(pairs))
    ensures InKeyOrder(Assemble(pairs), Without(pairs, ProtoKey))
    decreases |pairs|
  {
    if |pairs| > 0 {
      var n := |pairs| - 1;
      var p, x := pairs[..n], pairs[n];
      assert RecordKeys(p) == RecordKeys(pairs)[..n];
      AssembleDistinct(p);
      assert RecordKeys(pairs)[n] == x.0;
      assert x.0 !in RecordKeys(pairs)[..n];
      WithoutKeys(p, ProtoKey, x.0);
      SetFieldStep(Assemble(p), Without(p, ProtoKey), x);
      WithoutSnoc(p, x, ProtoKey);
      assert p + [x] == pairs;
    }
  }

  /** Two records in key order with the same pairs start with the same
      array index. */
  lemma SameFirstIndex(a: Csv.Record, b: Csv.Record)
    requires KeyOrdered(a) && KeyOrdered(b) && multiset(a) == multiset(b)
    requires |a| > 0 && IsArrayIndex(a[0].0)
    ensures |b| > 0 && b[0] == a[0]
  {
    assert a[0] in multiset(b);
    var j :| 0 <= j < |b| && b[j] == a[0];
    assert 0 < j ==> IndexBefore(b[0].0, b[j].0);
    assert IsArrayIndex(b[0].0);
    assert b[0] in multiset(a);
    var i :| 0 <= i < |a| && a[i] == b[0];
    assert 0 < i ==> IndexBefore(a[0].0, a[i].0);
  }

  /** A record in key order that starts with another key has no array
      index at all. */
  lemma NoIndexAfterPlain(a: Csv.Record)
    requires KeyOrdered(a) && |a| > 0 && !IsArrayIndex(a[0].0)
    ensures forall i :: 0 <= i < |a| ==> !IsArrayIndex(a[i].0)
  {
    forall i | 0 < i < |a| ensures !IsArrayIndex(a[i].0) {
      assert IsArrayIndex(a[i].0) ==> IndexBefore(a[0].0, a[i].0);
    }
  }

  lemma OrderedTail(a: Csv.Record)
    requires KeyOrdered(a) && |a| > 0
    ensures KeyOrdered(a[1..])
  {
    var t := a[1..];
    forall i, j | 0 <= i < j < |t| && IsArrayIndex(t[j].0) ensures IndexBefore(t[i].0, t[j].0) {
      assert t[i] == a[i + 1] && t[j] == a[j + 1];
    }
  }

  /** Removing the same first pair from two records with the same pairs
      leaves the same pairs. */
  lemma TailsSamePairs(a: Csv.Record, b: Csv.Record)
    requires multiset(a) == multiset(b) && |a| > 0 && |b| > 0 && a[0] == b[0]
    ensures multiset(a[1..]) == multiset(b[1..])
  {
    assert a == [a[0]] + a[1..] && b == [b[0]] + b[1..];
    var ma, mb := multiset(a[1..]), multiset(b[1..]);
    assert multiset(a) == multiset{a[0]} + ma;
    assert multiset(b) == multiset{a[0]} + mb;
    assert ma == multiset(a) - multiset{a[0]};
    assert mb == multiset(b) - multiset{a[0]};
  }

  /** NonIndex skips a leading array index. */
  lemma NonIndexSkipsIndex(a: Csv.Record)
    requires |a| > 0 && IsArrayIndex(a[0].0)
    ensures NonIndex(a) == NonIndex(a[1..])
  {
  }

  /** Object.keys order is determined by the pairs: two records in key
      order with the same pairs and the same other keys in the same order
      are equal. */
  lemma {:induction false} KeyOrderUnique(a: Csv.Record, b: Csv.Record)
    requires KeyOrdered(a) && KeyOrdered(b)
    requires multiset(a) == multiset(b) && NonIndex(a) == NonIndex(b)
    ensures a == b
    decreases |a|
  {
    assert |a| == |multiset(a)| && |b| == |multiset(b)|;
    if |a| > 0 {
      if IsArrayIndex(a[0].0) {
        SameFirstIndex(a, b);
        TailsSamePairs(a, b);
        NonIndexSkipsIndex(a);
        NonIndexSkipsIndex(b);
        OrderedTail(a);
        OrderedTail(b);
        KeyOrderUnique(a[1..], b[1..]);
        assert a == [a[0]] + a[1..] && b == [b[0]] + b[1..];
      } else {
        NoIndexAfterPlain(a);
        forall j | 0 <= j < |b| ensures !IsArrayIndex(b[j].0) {
          assert b[j] in multiset(a);
        }
        NonIndexAll(a);
        NonIndexAll(b);
      }
    }
  }

  /** When no key is an array index, Object.keys order is the order of
      the pairs. */
  lemma KeyOrderPlain(rec: Csv.Record, pairs: Csv.Record)
    requires InKeyOrder(rec, pairs)
    requires forall i :: 0 <= i < |pairs| ==> !IsArrayIndex(pairs[i].0)
    ensures rec == pairs
  {
    NonIndexAll(pairs);
    KeyOrderUnique(rec, pairs);
  }

  predicate Distinct(xs: seq<string>) {
    forall i, j :: 0 <= i < j < |xs| ==> xs[i] != xs[j]
  }

  lemma DistinctCons(x: string, xs: seq<string>)
    ensures Distinct([x] + xs) <==> x !in xs && Distinct(xs)
  {
    var ys := [x] + xs;
    if Distinct(ys) {
      forall i, j | 0 <= i < j < |xs| ensures xs[i] != xs[j] {
        assert xs[i] == ys[i + 1] && xs[j] == ys[j + 1];
      }
      forall k | 0 <= k < |xs| ensures xs[k] != x {
        assert ys[k + 1] == xs[k] && ys[0] == x;
      }
    }
    if x !in xs && Distinct(xs) {
      forall i, j | 0 <= i < j < |ys| ensures ys[i] != ys[j] {
        if i == 0 {
          assert ys[j] == xs[j - 1];
        } else {
          assert ys[i] == xs[i - 1] && ys[j] == xs[j - 1];
        }
      }
    }
  }

  /** A key with no ':' and no surrounding white space survives the trip
      through its label. */
  lemma KeyOfOwnLabel(k: string)
    requires ':' !in k
    requires |k| > 0 ==> !IsJsSpace(k[0]) && !IsJsSpace(k[|k| - 1])
    ensures KeyOfLabel(k + ":") == k
  {
    RemoveColonAtEnd(k);
    TrimOfTrimmed(k);
  }

  /** The timestamp item reads back under the key "Timestamp". */
  lemma TimestampLabel(k: string)
    requires k == "Timestamp"
    ensures KeyOfLabel(k + ":") == k
  {
    assert |k| == 9 && k[0] == 'T' && k[8] == 'p';
    forall i | 0 <= i < |k| ensures k[i] != ':' {
    }
    KeyOfOwnLabel(k);
  }

  lemma {:induction false} RemoveColonAtEnd(k: string)
    requires ':' !in k
    ensures RemoveFirstColon(k + ":") == k
    decreases |k|
  {
    if |k| == 0 {
      assert k + ":" == ":";
    } else {
      assert (k + ":")[1..] == k[1..] + ":";
      RemoveColonAtEnd(k[1..]);
      assert [k[0]] + k[1..] == k;
    }
  }

  /** A plain key: no ':', no surrounding white space, not "Timestamp". */
  predicate PlainKey(k: string) {
    ':' !in k && k != "Timestamp" && (|k| > 0 ==> !IsJsSpace(k[0]) && !IsJsSpace(k[|k| - 1]))
  }

  function FieldKeys(fields: seq<(string, Value)>): seq<string> {
    seq(|fields|, i requires 0 <= i < |fields| => fields[i].0)
  }

  lemma {:induction false} ShownFieldsKeys(fields: seq<(string, Value)>)
    ensures forall i :: 0 <= i < |ShownFields(fields)| ==> ShownFields(fields)[i].0 in FieldKeys(fields)
    decreases |fields|
  {
    if |fields| > 0 {
      ShownFieldsKeys(fields[1..]);
      assert FieldKeys(fields) == [fields[0].0] + FieldKeys(fields[1..]);
    }
  }

  lemma {:induction false} ShownFieldsDistinct(fields: seq<(string, Value)>)
    requires Distinct(FieldKeys(fields))
    ensures Distinct(RecordKeys(ShownFields(fields)))
    decreases |fields|
  {
    if |fields| > 0 {
      assert FieldKeys(fields) == [fields[0].0] + FieldKeys(fields[1..]);
      DistinctCons(fields[0].0, FieldKeys(fields[1..]));
      ShownFieldsDistinct(fields[1..]);
      ShownFieldsKeys(fields[1..]);
      var t := ShownFields(fields[1..]);
      if fields[0].0 != "ts" {
        assert RecordKeys(ShownFields(fields)) == [fields[0].0] + RecordKeys(t);
        DistinctCons(fields[0].0, RecordKeys(t));
      } else {
        assert RecordKeys(ShownFields(fields)) == RecordKeys(t);
      }
    }
  }

  /** Export recovers what was logged: the record getLogData reads from
      a data entry holds the timestamp text under "Timestamp" and every
      field of the payload except ts and __proto__ with String(value), in
      Object.keys order, when the payload's keys are distinct and plain
      and nothing in it throws on conversion. */
  lemma DataEntryRoundTrip(fields: seq<(string, Value)>, text: string, textThrows: bool, locale: Value -> string)
    requires Distinct(FieldKeys(fields))
    requires forall i :: 0 <= i < |fields| ==> PlainKey(fields[i].0)
    requires !ConversionThrows(fields)
    ensures InKeyOrder(RecordOf(MakeEntry(Payload(Object(fields, text, textThrows)), "data-message", locale)),
                       [("Timestamp", TimestampText(fields, locale))] + Without(ShownFields(fields), ProtoKey))
  {
    var items := DataItems(fields, locale);
    DataEntryRecord(fields, text, textThrows, locale);
    DataItemsReadBack(fields, locale);
    StampedShownFields(fields, TimestampText(fields, locale));
  }

  /** A payload with no __proto__ field is exported with every shown
      field; with no array-index key either, in the payload's order after
      the timestamp. */
  lemma DataEntryRoundTripKeepsAll(fields: seq<(string, Value)>, text: string, textThrows: bool, locale: Value -> string)
    requires Distinct(FieldKeys(fields))
    requires forall i :: 0 <= i < |fields| ==> PlainKey(fields[i].0) && fields[i].0 != ProtoKey
    requires !ConversionThrows(fields)
    ensures var r := RecordOf(MakeEntry(Payload(Object(fields, text, textThrows)), "data-message", locale));
      && InKeyOrder(r, [("Timestamp", TimestampText(fields, locale))] + ShownFields(fields))
      && ((forall i :: 0 <= i < |fields| ==> !IsArrayIndex(fields[i].0)) ==>
            r == [("Timestamp", TimestampText(fields, locale))] + ShownFields(fields))
  {
    DataEntryRoundTrip(fields, text, textThrows, locale);
    ShownFieldsAvoid(fields, ProtoKey);
    WithoutKeepsAll(ShownFields(fields), ProtoKey);
    if forall i :: 0 <= i < |fields| ==> !IsArrayIndex(fields[i].0) {
      var pairs := [("Timestamp", TimestampText(fields, locale))] + ShownFields(fields);
      TimestampNotIndex("Timestamp");
      ShownFieldsKeys(fields);
      forall i | 0 <= i < |pairs| ensures !IsArrayIndex(pairs[i].0) {
        if i > 0 {
          assert pairs[i] == ShownFields(fields)[i - 1];
          assert pairs[i].0 in FieldKeys(fields);
        }
      }
      KeyOrderPlain(RecordOf(MakeEntry(Payload(Object(fields, text, textThrows)), "data-message", locale)), pairs);
    }
  }

  lemma TimestampNotIndex(k: string)
    requires k == "Timestamp"
    ensures !IsArrayIndex(k) && k != ProtoKey
  {
    assert k[0] == 'T' && ProtoKey[0] == '_';
  }

  /** An array index is a plain key, and neither ts nor __proto__. */
  lemma IndexKeyPlain(k: string)
    requires IsArrayIndex(k)
    ensures PlainKey(k) && k != "ts" && k != ProtoKey
  {
    assert '0' <= k[0] <= '9' && '0' <= k[|k| - 1] <= '9';
    forall i | 0 <= i < |k| ensures k[i] != ':' {
      assert '0' <= k[i] <= '9';
    }
  }

  /** Two pairs, an array index and another key, are in key order only
      with the array index first. */
  lemma IndexPairFirst(r: Csv.Record, x: (string, string), y: (string, string))
    requires IsArrayIndex(x.0) && !IsArrayIndex(y.0)
    requires InKeyOrder(r, [y, x])
    ensures r == [x, y]
  {
    NonIndexConcat([x], [y]);
    NonIndexConcat([y], [x]);
    NonIndexSingle(x);
    NonIndexSingle(y);
    assert [x] + [y] == [x, y] && [y] + [x] == [y, x];
    assert multiset([x, y]) == multiset([y, x]);
    KeyOrderUnique(r, [x, y]);
  }

  /** An array-index key is exported before the timestamp: the payload
      {"5": v} gives the record {"5": String(v), "Timestamp": ...}, whose
      CSV header is 5;Timestamp. */
  lemma IndexKeyBeforeTimestamp(fields: seq<(string, Value)>, text: string, textThrows: bool, locale: Value -> string)
    requires |fields| == 1 && IsArrayIndex(fields[0].0) && !fields[0].1.convertThrows
    ensures RecordOf(MakeEntry(Payload(Object(fields, text, textThrows)), "data-message", locale))
         == [(fields[0].0, fields[0].1.text), ("Timestamp", TimestampText(fields, locale))]
  {
    var k, v := fields[0].0, fields[0].1;
    IndexKeyPlain(k);
    assert FieldKeys(fields) == [k];
    assert fields[1..] == [];
    assert ShownFields(fields) == [(k, v.text)];
    DataEntryRoundTripKeepsAll(fields, text, textThrows, locale);
    TimestampNotIndex("Timestamp");
    var ts := ("Timestamp", TimestampText(fields, locale));
    assert [ts] + [(k, v.text)] == [ts, (k, v.text)];
    var r := RecordOf(MakeEntry(Payload(Object(fields, text, textThrows)), "data-message", locale));
    IndexPairFirst(r, (k, v.text), ts);
  }

  /** A payload whose only field is __proto__ is exported as the
      timestamp alone. */
  lemma ProtoFieldDropped(k: string, v: Value, text: string, textThrows: bool, locale: Value -> string)
    requires k == ProtoKey && !v.convertThrows
    ensures RecordOf(MakeEntry(Payload(Object([(k, v)], text, textThrows)), "data-message", locale))
         == [("Timestamp", TimestampText([(k, v)], locale))]
  {
    var fields := [(k, v)];
    assert k != "ts" && k != "Timestamp" by {
      assert |k| == 9 && k[0] == '_';
    }
    assert PlainKey(k) by {
      forall i | 0 <= i < |k| ensures k[i] != ':' {
      }
    }
    assert FieldKeys(fields) == [k];
    assert !ConversionThrows(fields) by {
      assert Lookup(fields, "ts").None?;
    }
    DataEntryRoundTrip(fields, text, textThrows, locale);
    assert fields[1..] == [];
    assert ShownFields(fields) == [(k, v.text)];
    assert [(k, v.text)][1..] == [];
    assert Without([(k, v.text)], ProtoKey) == [];
    TimestampNotIndex("Timestamp");
    KeyOrderPlain(RecordOf(MakeEntry(Payload(Object(fields, text, textThrows)), "data-message", locale)),
                  [("Timestamp", TimestampText(fields, locale))]);
  }

  lemma ShownFieldsAvoid(fields: seq<(string, Value)>, key: string)
    requires forall i :: 0 <= i < |fields| ==> fields[i].0 != key
    ensures key !in RecordKeys(ShownFields(fields))
  {
    ShownFieldsKeys(fields);
    var sf := ShownFields(fields);
    forall k | 0 <= k < |sf| ensures RecordKeys(sf)[k] != key {
      assert RecordKeys(sf)[k] == sf[k].0 && sf[k].0 in FieldKeys(fields);
    }
  }

  /** The timestamp pair followed by the shown fields of a payload with
      distinct plain keys is assembled into those pairs, less a __proto__
      field, in Object.keys order. */
  lemma StampedShownFields(fields: seq<(string, Value)>, stamp: string)
    requires Distinct(FieldKeys(fields))
    requires forall i :: 0 <= i < |fields| ==> PlainKey(fields[i].0)
    ensures InKeyOrder(Assemble([("Timestamp", stamp)] + ShownFields(fields)),
                       [("Timestamp", stamp)] + Without(ShownFields(fields), ProtoKey))
  {
    var sf := ShownFields(fields);
    ShownFieldsDistinct(fields);
    ShownFieldsPlain(fields);
    PlainKeysAvoidTimestamp(sf);
    StampedRecordDistinct("Timestamp", stamp, sf);
    var t := [("Timestamp", stamp)] + sf;
    assert t[1..] == sf;
    TimestampNotIndex(t[0].0);
  }

  /** A data entry's record is assembled from its items. */
  lemma DataEntryRecord(fields: seq<(string, Value)>, text: string, textThrows: bool, locale: Value -> string)
    requires !ConversionThrows(fields)
    ensures RecordOf(MakeEntry(Payload(Object(fields, text, textThrows)), "data-message", locale))
         == Assemble(ReadItems(DataItems(fields, locale)))
  {
    var e := MakeEntry(Payload(Object(fields, text, textThrows)), "data-message", locale);
    assert e.body == Items(DataItems(fields, locale));
  }

  /** No plain key is "Timestamp". */
  lemma PlainKeysAvoidTimestamp(sf: Csv.Record)
    requires forall i :: 0 <= i < |sf| ==> PlainKey(sf[i].0)
    ensures "Timestamp" !in RecordKeys(sf)
  {
    forall k | 0 <= k < |sf| ensures RecordKeys(sf)[k] != "Timestamp" {
      assert RecordKeys(sf)[k] == sf[k].0;
    }
  }

  /** A record of distinct keys behind one more key none of them equals
      is assembled into its pairs, less a __proto__ one, in key order. */
  lemma StampedRecordDistinct(key: string, stamp: string, sf: Csv.Record)
    requires Distinct(RecordKeys(sf))
    requires key !in RecordKeys(sf)
    ensures InKeyOrder(Assemble([(key, stamp)] + sf), Without([(key, stamp)] + sf, ProtoKey))
  {
    var expected := [(key, stamp)] + sf;
    assert RecordKeys(expected) == [key] + RecordKeys(sf);
    DistinctCons(key, RecordKeys(sf));
    AssembleDistinct(expected);
  }

  /** Reading a data list's labels gives back "Timestamp" and the shown
      keys. */
  lemma DataItemsReadBack(fields: seq<(string, Value)>, locale: Value -> string)
    requires forall i :: 0 <= i < |fields| ==> PlainKey(fields[i].0)
    ensures ReadItems(DataItems(fields, locale))
         == [("Timestamp", TimestampText(fields, locale))] + ShownFields(fields)
  {
    var sf := ShownFields(fields);
    var stamp := ("Timestamp:", TimestampText(fields, locale));
    ShownFieldsPlain(fields);
    LabelsReadBack(sf);
    ReadItemsConcat([stamp], Labelled(sf));
    TimestampReadBack(stamp.1);
    assert DataItems(fields, locale) == [stamp] + Labelled(sf);
  }

  lemma TimestampReadBack(v: string)
    ensures ReadItems([("Timestamp:", v)]) == [("Timestamp", v)]
  {
    var k := "Timestamp";
    TimestampLabel(k);
    assert k + ":" == "Timestamp:";
    assert ReadItems([(k + ":", v)])[0] == (k, v);
  }

  lemma ReadItemsConcat(a: seq<(string, string)>, b: seq<(string, string)>)
    ensures ReadItems(a + b) == ReadItems(a) + ReadItems(b)
  {
    assert forall i :: 0 <= i < |b| ==> (a + b)[|a| + i] == b[i];
  }

  /** Every shown key is plain when every key of the payload is. */
  lemma ShownFieldsPlain(fields: seq<(string, Value)>)
    requires forall i :: 0 <= i < |fields| ==> PlainKey(fields[i].0)
    ensures forall i :: 0 <= i < |ShownFields(fields)| ==> PlainKey(ShownFields(fields)[i].0)
  {
    ShownFieldsKeys(fields);
    forall i | 0 <= i < |ShownFields(fields)| ensures PlainKey(ShownFields(fields)[i].0) {
      assert ShownFields(fields)[i].0 in FieldKeys(fields);
    }
  }

  /** Plain keys read back from their labels. */
  lemma LabelsReadBack(sf: seq<(string, string)>)
    requires forall i :: 0 <= i < |sf| ==> PlainKey(sf[i].0)
    ensures ReadItems(Labelled(sf)) == sf
  {
    forall i | 0 <= i < |sf| ensures KeyOfLabel(sf[i].0 + ":") == sf[i].0 {
      KeyOfOwnLabel(sf[i].0);
    }
  }

  // -----------------------------------------------------------------------
  // The log element

  class MessageLog {
    /** Whether the dashboard view, and with it the log element, is loaded. */
    var mounted: bool
    /** The entries in display order, newest first. */
    var entries: seq<Entry>

    ghost predicate Valid()
      reads this
    {
      |entries| <= MaxMessages
    }

    constructor (mounted: bool)
      ensures Valid() && this.mounted == mounted && entries == []
    {
      this.mounted := mounted;
      entries := [];
    }

    /** addMessageToLog(message, className). threw reports the TypeError
        a null payload logged as data raises before anything is added. */
    method AddMessageToLog(message: LogMessage, className: string, locale: Value -> string) returns (threw: bool)
      requires Valid()
      modifies this
      ensures Valid()
      ensures threw <==> old(mounted) && ThrowsOnAdd(message, className)
      ensures !old(mounted) || threw ==> unchanged(this)
      ensures old(mounted) && !threw ==>
        var added := [MakeEntry(message, className, locale)] + old(entries);
        entries == added[..Min(|added|, MaxMessages)] && mounted
    {
      if !mounted {
        return false;
      }
      if ThrowsOnAdd(message, className) {
        return true;
      }
      entries := [MakeEntry(message, className, locale)] + entries;
      entries := DropOldest(entries);
      threw := false;
    }

    /** filterLog(searchText). */
    method FilterLog(search: string)
      requires Valid()
      modifies this
      ensures Valid() && mounted == old(mounted)
      ensures !old(mounted) ==> entries == old(entries)
      ensures old(mounted) ==>
        && |entries| == |old(entries)|
        && forall k :: 0 <= k < |entries| ==>
             entries[k] == old(entries)[k].(hidden := !ShownBy(old(entries)[k], search))
    {
      if mounted {
        entries := ApplyFilter(entries, search);
      }
    }

    /** getLogData(): one record per data entry, oldest first, and none
        while the log is not in the page. */
    function GetLogData(): (r: seq<Csv.Record>)
      reads this
      ensures !mounted ==> r == []
      ensures mounted ==> r == LogData(entries)
      ensures |r| == if mounted then DataCount(entries) else 0
    {
      if mounted then
        LogDataCount(entries);
        LogData(entries)
      else []
    }
  }

  /** Adding to a full log keeps 50 entries: the new one first, then the
      49 newest of the old ones in their order. */
  method FullLogScenario(old50: seq<Entry>, locale: Value -> string) returns (after: seq<Entry>)
    requires |old50| == MaxMessages
    ensures |after| == MaxMessages
    ensures after[0] == Entry("system-message", Text("x"), false)
    ensures after[1..] == old50[..MaxMessages - 1]
  {
    var log := new MessageLog(true);
    log.entries := old50;
    var threw := log.AddMessageToLog(Say("x"), "system-message", locale);
    after := log.entries;
  }
}
