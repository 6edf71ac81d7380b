// Labelled metrics (metrics/multilabelmap.go): a map and, beside it, a list of
// its entries kept in the order of their label strings by binary search.
module MultiLabelMap {
  import opened Common

  // A key is a struct of scalar fields; its type is their names and kinds.
  datatype Kind = StringKind | IntKind | UintKind | BoolKind

  datatype Field = Field(name: bytes, kind: Kind)

  datatype Value = StringValue(s: bytes) | IntValue(i: int) | UintValue(u: nat) | BoolValue(b: bool)

  function KindOf(v: Value): Kind {
    match v
    case StringValue(_) => StringKind
    case IntValue(_) => IntKind
    case UintValue(_) => UintKind
    case BoolValue(_) => BoolKind
  }

  type Key = seq<Value>

  predicate Conforms(shape: seq<Field>, k: Key) {
    |k| == |shape| && forall i :: 0 <= i < |k| ==> KindOf(k[i]) == shape[i].kind
  }

  type Var = nat
  type Labels = Key -> bytes
  type Quote = bytes -> bytes

  datatype Entry = Entry(key: Key, labels: bytes, val: Var)

  // ---- The order of Go strings ----

  predicate Less(a: bytes, b: bytes) {
    b != [] && (a == [] || a[0] < b[0] || (a[0] == b[0] && Less(a[1..], b[1..])))
  }

  lemma {:induction false} LessTotal(a: bytes, b: bytes)
    ensures Less(a, b) || a == b || Less(b, a)
    ensures !(Less(a, b) && Less(b, a)) && !Less(a, a)
  {
    if a != [] {
      LessIrreflexive(a);
    }
    if a != [] && b != [] && a[0] == b[0] {
      LessTotal(a[1..], b[1..]);
      assert a == [a[0]] + a[1..] && b == [b[0]] + b[1..];
    }
  }

  lemma {:induction false} LessIrreflexive(a: bytes)
    ensures !Less(a, a)
  {
    if a != [] {
      LessIrreflexive(a[1..]);
    }
  }

  lemma {:induction false} LessTransitive(a: bytes, b: bytes, c: bytes)
    requires Less(a, b) && Less(b, c)
    ensures Less(a, c)
  {
    if a != [] && a[0] == b[0] && b[0] == c[0] {
      LessTransitive(a[1..], b[1..], c[1..]);
    }
  }

  // ---- Label strings ----

  const Mark: byte := 34
  const Comma: byte := 44
  const Minus: byte := 45
  const Equals: byte := 61
  const Open: byte := 123
  const Close: byte := 125

  function Decimal(n: nat): (s: bytes)
    ensures s != [] && forall i :: 0 <= i < |s| ==> 48 <= s[i] < 58
  {
    if n < 10 then [48 + n] else Decimal(n / 10) + [48 + n % 10]
  }

  function Signed(i: int): bytes { if i < 0 then [Minus] + Decimal(-i) else Decimal(i) }

  function BoolText(b: bool): bytes { if b then [116, 114, 117, 101] else [102, 97, 108, 115, 101] }

  function Marked(s: bytes): bytes { [Mark] + s + [Mark] }

  function ValueText(quote: Quote, v: Value): bytes {
    match v
    case StringValue(s) => quote(s)
    case IntValue(i) => Marked(Signed(i))
    case UintValue(u) => Marked(Decimal(u))
    case BoolValue(b) => Marked(BoolText(b))
  }

  function Label(f: Field): bytes { f.name + [Equals] }

  function FieldText(quote: Quote, f: Field, v: Value): bytes { Label(f) + ValueText(quote, v) }

  // The first n fields, separated by commas.
  function FieldsText(quote: Quote, shape: seq<Field>, k: Key, n: nat): bytes
    requires n <= |shape| && n <= |k|
  {
    if n == 0 then []
    else FieldsText(quote, shape, k, n - 1) + (Separator(n - 1) + FieldText(quote, shape[n - 1], k[n - 1]))
  }

  function Separator(i: nat): bytes { if i == 0 then [] else [Comma] }

  function LabelString(quote: Quote, shape: seq<Field>, k: Key): bytes {
    [Open] + FieldsText(quote, shape, k, Min(|shape|, |k|)) + [Close]
  }

  // LabelString with its loop over the fields.
  method WriteLabels(quote: Quote, shape: seq<Field>, k: Key) returns (r: bytes)
    requires |k| == |shape|
    ensures r == LabelString(quote, shape, k)
  {
    r := [Open];
    var first := true;
    for i := 0 to |k|
      invariant first <==> i == 0
      invariant r == [Open] + FieldsText(quote, shape, k, i)
    {
      Appended(r, FieldsText(quote, shape, k, i), Separator(i), FieldText(quote, shape[i], k[i]));
      if !first {
        r := r + [Comma];
      }
      first := false;
      r := r + FieldText(quote, shape[i], k[i]);
    }
    r := r + [Close];
  }

  lemma Appended(r: bytes, text: bytes, sep: bytes, field: bytes)
    requires r == [Open] + text
    ensures r + sep + field == [Open] + (text + (sep + field))
    ensures sep == [] ==> r + field == r + sep + field
  {
  }

  // What is assumed of the quoting of strings: a quoted string can be read back
  // from the front of any text.
  ghost predicate Readable(quote: Quote) {
    forall a, b, x, y {:trigger ReadAlike(quote, a, b, x, y)} :: ReadAlike(quote, a, b, x, y) ==> a == b
  }

  ghost predicate ReadAlike(quote: Quote, a: bytes, b: bytes, x: bytes, y: bytes) { quote(a) + x == quote(b) + y }

  ghost function Read(s: bytes): nat
    requires forall i :: 0 <= i < |s| ==> 48 <= s[i] < 58
  {
    if s == [] then 0 else 10 * Read(s[..|s| - 1]) + (s[|s| - 1] - 48)
  }

  lemma {:induction false} DecimalReads(n: nat)
    ensures Read(Decimal(n)) == n
  {
    if n < 10 {
      assert Decimal(n)[..0] == [];
    } else {
      DecimalReads(n / 10);
      assert Decimal(n)[..|Decimal(n)| - 1] == Decimal(n / 10);
    }
  }

  lemma SignedReads(i: int)
    ensures Signed(i)[0] == Minus <==> i < 0
    ensures i < 0 ==> Signed(i)[1..] == Decimal(-i) && Read(Signed(i)[1..]) == -i
    ensures i >= 0 ==> Signed(i) == Decimal(i) && Read(Decimal(i)) == i
  {
    if i < 0 { DecimalReads(-i); } else { DecimalReads(i); }
  }

  lemma SignedInjective(i: int, j: int)
    requires Signed(i) == Signed(j)
    ensures i == j
  {
    SignedReads(i);
    SignedReads(j);
  }

  // Text between quotation marks ends at the second one.
  lemma MarkedReadable(a: bytes, b: bytes, x: bytes, y: bytes)
    requires Mark !in a && Mark !in b && Marked(a) + x == Marked(b) + y
    ensures a == b
  {
    var s, t := Marked(a) + x, Marked(b) + y;
    assert forall i :: 0 <= i < |a| ==> s[i + 1] == a[i] != Mark;
    assert forall i :: 0 <= i < |b| ==> t[i + 1] == b[i] != Mark;
    assert s[|a| + 1] == Mark && t[|b| + 1] == Mark;
    assert |a| == |b|;
  }

  // The values of one kind can be read back from the front of a text.
  lemma ValueReadable(quote: Quote, v: Value, w: Value, x: bytes, y: bytes)
    requires Readable(quote) && KindOf(v) == KindOf(w) && ValueText(quote, v) + x == ValueText(quote, w) + y
    ensures v == w
  {
    match v {
      case StringValue(s) => assert ReadAlike(quote, s, w.s, x, y);
      case IntValue(i) =>
        MarkedReadable(Signed(i), Signed(w.i), x, y);
        SignedInjective(i, w.i);
      case UintValue(u) =>
        MarkedReadable(Decimal(u), Decimal(w.u), x, y);
        DecimalReads(u);
        DecimalReads(w.u);
      case BoolValue(b) => MarkedReadable(BoolText(b), BoolText(w.b), x, y);
    }
  }

  lemma SamePrefix(p: bytes, a: bytes, b: bytes)
    requires p + a == p + b
    ensures a == b
  {
    assert (p + a)[|p|..] == a && (p + b)[|p|..] == b;
  }

  lemma FieldReadable(quote: Quote, f: Field, v: Value, w: Value, x: bytes, y: bytes)
    requires Readable(quote) && KindOf(v) == KindOf(w) && FieldText(quote, f, v) + x == FieldText(quote, f, w) + y
    ensures v == w && x == y
  {
    ConcatAssoc(Label(f), ValueText(quote, v), x);
    ConcatAssoc(Label(f), ValueText(quote, w), y);
    SamePrefix(Label(f), ValueText(quote, v) + x, ValueText(quote, w) + y);
    ValueReadable(quote, v, w, x, y);
    SamePrefix(FieldText(quote, f, v), x, y);
  }

  lemma SeparatedReadable(quote: Quote, sep: bytes, f: Field, v: Value, w: Value, x: bytes, y: bytes)
    requires Readable(quote) && KindOf(v) == KindOf(w)
    requires sep + (FieldText(quote, f, v) + x) == sep + (FieldText(quote, f, w) + y)
    ensures v == w && x == y
  {
    SamePrefix(sep, FieldText(quote, f, v) + x, FieldText(quote, f, w) + y);
    FieldReadable(quote, f, v, w, x, y);
  }

  // The n-th field and what follows it.
  ghost function From(quote: Quote, shape: seq<Field>, k: Key, n: nat, x: bytes): bytes
    requires 0 < n <= |shape| && n <= |k|
  {
    Separator(n - 1) + (FieldText(quote, shape[n - 1], k[n - 1]) + x)
  }

  lemma FromMoved(quote: Quote, shape: seq<Field>, k: Key, n: nat, x: bytes)
    requires 0 < n <= |shape| && n <= |k|
    ensures FieldsText(quote, shape, k, n) + x == FieldsText(quote, shape, k, n - 1) + From(quote, shape, k, n, x)
  {
    Regroup(FieldsText(quote, shape, k, n - 1), Separator(n - 1), FieldText(quote, shape[n - 1], k[n - 1]), x);
  }

  lemma Regroup(text: bytes, sep: bytes, field: bytes, x: bytes)
    ensures text + (sep + field) + x == text + (sep + (field + x))
  {
    ConcatAssoc(text, sep + field, x);
    ConcatAssoc(sep, field, x);
  }

  // Two keys, as texts of n fields with something behind.
  ghost predicate Alike(quote: Quote, shape: seq<Field>, k: Key, l: Key, n: nat, x: bytes, y: bytes)
    requires n <= |shape| && n <= |k| && n <= |l|
  {
    FieldsText(quote, shape, k, n) + x == FieldsText(quote, shape, l, n) + y
  }

  lemma AlikeBack(quote: Quote, shape: seq<Field>, k: Key, l: Key, n: nat, x: bytes, y: bytes)
    requires 0 < n <= |shape| && n <= |k| && n <= |l| && Alike(quote, shape, k, l, n, x, y)
    ensures Alike(quote, shape, k, l, n - 1, From(quote, shape, k, n, x), From(quote, shape, l, n, y))
  {
    FromMoved(quote, shape, k, n, x);
    FromMoved(quote, shape, l, n, y);
  }

  // So can the fields of a key.
  lemma {:induction false} FieldsReadable(quote: Quote, shape: seq<Field>, k: Key, l: Key, n: nat, x: bytes, y: bytes)
    requires Readable(quote) && Conforms(shape, k) && Conforms(shape, l) && n <= |shape| && Alike(quote, shape, k, l, n, x, y)
    ensures SameTo(k, l, n) && x == y
  {
    if n == 0 {
      SamePrefix([], x, y);
    } else {
      AlikeBack(quote, shape, k, l, n, x, y);
      FieldsReadable(quote, shape, k, l, n - 1, From(quote, shape, k, n, x), From(quote, shape, l, n, y));
      SeparatedReadable(quote, Separator(n - 1), shape[n - 1], k[n - 1], l[n - 1], x, y);
      SameOneMore(k, l, n);
    }
  }

  // The first n values agree.
  ghost predicate SameTo(k: Key, l: Key, n: nat) {
    n <= |k| && n <= |l| && forall i :: 0 <= i < n ==> k[i] == l[i]
  }

  lemma SameOneMore(k: Key, l: Key, n: nat)
    requires 0 < n <= |k| && n <= |l| && SameTo(k, l, n - 1) && k[n - 1] == l[n - 1]
    ensures SameTo(k, l, n)
  {
  }

  // Two keys of one type with the same labels are the same key.
  lemma LabelsInjective(quote: Quote, shape: seq<Field>, k: Key, l: Key)
    requires Readable(quote) && Conforms(shape, k) && Conforms(shape, l)
    requires LabelString(quote, shape, k) == LabelString(quote, shape, l)
    ensures k == l
  {
    var n := |shape|;
    Opened(FieldsText(quote, shape, k, n), FieldsText(quote, shape, l, n));
    FieldsReadable(quote, shape, k, l, n, [Close], [Close]);
  }

  lemma Opened(a: bytes, b: bytes)
    requires [Open] + a + [Close] == [Open] + b + [Close]
    ensures a + [Close] == b + [Close]
  {
    assert ([Open] + a + [Close])[1..] == a + [Close] && ([Open] + b + [Close])[1..] == b + [Close];
  }

  function Labelling(quote: Quote, shape: seq<Field>): Labels { k => LabelString(quote, shape, k) }

  // ---- The list ----

  // Earlier entries never have greater labels.
  ghost predicate Sorted(q: seq<Entry>) {
    forall i, j :: 0 <= i < j < |q| ==> !Less(q[j].labels, q[i].labels)
  }

  // sort.Search for the first entry whose labels are not below ls.
  method Search(q: seq<Entry>, ls: bytes) returns (i: nat)
    requires Sorted(q)
    ensures i <= |q|
    ensures forall k :: 0 <= k < i ==> Less(q[k].labels, ls)
    ensures forall k :: i <= k < |q| ==> !Less(q[k].labels, ls)
  {
    i := 0;
    var j := |q|;
    while i < j
      invariant 0 <= i <= j <= |q|
      invariant forall k :: 0 <= k < i ==> Less(q[k].labels, ls)
      invariant forall k :: j <= k < |q| ==> !Less(q[k].labels, ls)
    {
      var h := (i + j) / 2;
      if Less(q[h].labels, ls) {
        forall k | 0 <= k < h
          ensures Less(q[k].labels, ls)
        {
          BelowBelow(q[k].labels, q[h].labels, ls);
        }
        i := h + 1;
      } else {
        forall k | h < k < |q|
          ensures !Less(q[k].labels, ls)
        {
          NotBelowAbove(q[h].labels, q[k].labels, ls);
        }
        j := h;
      }
    }
  }

  lemma BelowBelow(a: bytes, b: bytes, c: bytes)
    requires !Less(b, a) && Less(b, c)
    ensures Less(a, c)
  {
    LessTotal(a, b);
    if Less(a, b) {
      LessTransitive(a, b, c);
    }
  }

  lemma NotBelowAbove(a: bytes, b: bytes, c: bytes)
    requires !Less(b, a) && !Less(a, c)
    ensures !Less(b, c)
  {
    if Less(b, c) {
      LessTotal(a, b);
      if Less(a, b) {
        LessTransitive(a, b, c);
      }
    }
  }

  // Where the search stops.
  function Position(q: seq<Entry>, ls: bytes): (i: nat)
    ensures i <= |q|
  {
    if q == [] || !Less(q[0].labels, ls) then 0 else 1 + Position(q[1..], ls)
  }

  lemma {:induction false} PositionAt(q: seq<Entry>, ls: bytes, i: nat)
    requires i <= |q| && (forall k :: 0 <= k < i ==> Less(q[k].labels, ls)) && (i < |q| ==> !Less(q[i].labels, ls))
    ensures Position(q, ls) == i
  {
    if i > 0 {
      PositionAt(q[1..], ls, i - 1);
    }
  }

  lemma {:induction false} PositionSplits(q: seq<Entry>, ls: bytes)
    ensures forall k :: 0 <= k < Position(q, ls) ==> Less(q[k].labels, ls)
    ensures Position(q, ls) < |q| ==> !Less(q[Position(q, ls)].labels, ls)
  {
    if q != [] && Less(q[0].labels, ls) {
      PositionSplits(q[1..], ls);
      forall k | 0 <= k < Position(q, ls)
        ensures Less(q[k].labels, ls)
      {
        if k > 0 {
          assert q[k] == q[1..][k - 1];
        }
      }
    }
  }

  function AddSpec(q: seq<Entry>, e: Entry): seq<Entry> {
    var i := Position(q, e.labels);
    if i >= |q| then q + [e]
    else if q[i].key == e.key then q[i := q[i].(val := e.val)]
    else q[..i] + [e] + q[i..]
  }

  // Adding keeps the order, whatever the labels.
  lemma AddKeepsSorted(q: seq<Entry>, e: Entry)
    requires Sorted(q)
    ensures Sorted(AddSpec(q, e))
  {
    var i, q' := Position(q, e.labels), AddSpec(q, e);
    PositionSplits(q, e.labels);
    if i < |q| && q[i].key == e.key {
      assert forall k :: 0 <= k < |q| ==> q'[k].labels == q[k].labels;
    } else {
      assert q' == q[..i] + [e] + q[i..];
      forall k | 0 <= k < |q|
        ensures k < i ==> !Less(e.labels, q[k].labels)
        ensures k >= i ==> !Less(q[k].labels, e.labels)
      {
        LessTotal(q[k].labels, e.labels);
        if k > i {
          NotBelowAbove(q[i].labels, q[k].labels, e.labels);
        }
      }
    }
  }

  lemma RemovedSorted(q: seq<Entry>, i: nat)
    requires Sorted(q) && i < |q|
    ensures Sorted(q[..i] + q[i + 1..])
  {
    var q' := q[..i] + q[i + 1..];
    assert forall j :: 0 <= j < |q'| ==> q'[j] == q[if j < i then j else j + 1];
  }

  datatype Table = Table(m: map<Key, Var>, sorted: seq<Entry>)

  function SetSpec(labelOf: Labels, t: Table, key: Key, val: Var): Table {
    Table(t.m[key := val], AddSpec(t.sorted, Entry(key, labelOf(key), val)))
  }

  function FillSpec(labelOf: Labels, t: Table, key: Key, val: Var): Table {
    if key in t.m then t else SetSpec(labelOf, t, key, val)
  }

  function DeleteSpec(labelOf: Labels, t: Table, key: Key): Table {
    var i := Position(t.sorted, labelOf(key));
    if i < |t.sorted| && t.sorted[i].key == key then Table(t.m - {key}, t.sorted[..i] + t.sorted[i + 1..]) else t
  }

  class LabelMap {
    const quote: Quote
    const shape: seq<Field>
    var m: map<Key, Var>
    var sorted: seq<Entry>

    function View(): Table
      reads this
    {
      Table(m, sorted)
    }

    constructor (quote: Quote, shape: seq<Field>)
      ensures this.quote == quote && this.shape == shape && View() == Table(map[], [])
    {
      this.quote, this.shape, m, sorted := quote, shape, map[], [];
    }

    // Removes the keys one by one, in whatever order.
    method Init()
      modifies this
      ensures View() == Table(map[], [])
    {
      sorted := [];
      while m.Keys != {}
        invariant sorted == []
        decreases |m.Keys|
      {
        var k :| k in m;
        assert |m.Keys - {k}| < |m.Keys|;
        assert (m - {k}).Keys == m.Keys - {k};
        m := m - {k};
      }
    }

    method AddKeyLocked(key: Key, val: Var)
      requires Sorted(sorted) && Conforms(shape, key)
      modifies `sorted
      ensures sorted == AddSpec(old(sorted), Entry(key, LabelString(quote, shape, key), val)) && Sorted(sorted)
    {
      AddKeepsSorted(sorted, Entry(key, LabelString(quote, shape, key), val));
      var ls := WriteLabels(quote, shape, key);
      var ent := Entry(key, ls, val);
      var i := Search(sorted, ls);
      PositionAt(sorted, ls, i);
      if i >= |sorted| {
        sorted := sorted + [ent];
      } else if sorted[i].key == key {
        sorted := sorted[i := sorted[i].(val := val)];
      } else {
        // One more slot, then the tail moves up by one.
        var tail := sorted[i..];
        sorted := sorted[..i] + [ent] + tail;
      }
    }

    method Get(key: Key) returns (r: Option<Var>)
      ensures r == if key in m then Some(m[key]) else None
    {
      r := if key in m then Some(m[key]) else None;
    }

    method GetOrFill(key: Key, fill: Var) returns (r: Var)
      requires Sorted(sorted) && Conforms(shape, key)
      modifies this
      ensures View() == FillSpec(Labelling(quote, shape), old(View()), key, fill) && Sorted(sorted) && key in m && r == m[key]
    {
      var found := Get(key);
      if found.Some? {
        return found.value;
      }
      AddKeyLocked(key, fill);
      m := m[key := fill];
      return fill;
    }

    method Set(key: Key, val: Var)
      requires Sorted(sorted) && Conforms(shape, key)
      modifies this
      ensures View() == SetSpec(Labelling(quote, shape), old(View()), key, val) && Sorted(sorted)
    {
      AddKeyLocked(key, val);
      m := m[key := val];
    }

    method Delete(key: Key)
      requires Sorted(sorted) && Conforms(shape, key)
      modifies this
      ensures View() == DeleteSpec(Labelling(quote, shape), old(View()), key) && Sorted(sorted)
    {
      var ls := WriteLabels(quote, shape, key);
      var i := Search(sorted, ls);
      PositionAt(sorted, ls, i);
      if i < |sorted| && sorted[i].key == key {
        RemovedSorted(sorted, i);
        sorted := sorted[..i] + sorted[i + 1..];
        m := m - {key};
      }
    }
  }

  // ---- The list mirrors the map ----

  ghost predicate Strict(q: seq<Entry>) {
    forall i, j :: 0 <= i < j < |q| ==> Less(q[i].labels, q[j].labels)
  }

  ghost predicate Mirror(labelOf: Labels, t: Table) {
    && Strict(t.sorted)
    && (forall e | e in t.sorted :: e.labels == labelOf(e.key) && e.key in t.m && t.m[e.key] == e.val)
    && (forall k | k in t.m :: Entry(k, labelOf(k), t.m[k]) in t.sorted)
  }

  ghost predicate Injective(labelOf: Labels) {
    forall a, b {:trigger labelOf(a), labelOf(b)} :: labelOf(a) == labelOf(b) ==> a == b
  }

  // No other key of the table has the labels of this one.
  ghost predicate Apart(labelOf: Labels, t: Table, key: Key) {
    forall k {:trigger labelOf(k)} :: k in t.m && labelOf(k) == labelOf(key) ==> k == key
  }

  lemma StrictSorted(q: seq<Entry>)
    requires Strict(q)
    ensures Sorted(q)
  {
    forall i, j | 0 <= i < j < |q|
      ensures !Less(q[j].labels, q[i].labels)
    {
      LessTotal(q[i].labels, q[j].labels);
    }
  }

  // The search finds a key exactly when the map has it, and its value with it.
  lemma FoundIff(labelOf: Labels, t: Table, key: Key)
    requires Mirror(labelOf, t) && Apart(labelOf, t, key)
    ensures var i := Position(t.sorted, labelOf(key));
            (i < |t.sorted| && t.sorted[i].key == key <==> key in t.m)
            && (key in t.m ==> t.sorted[i].val == t.m[key])
    ensures var i := Position(t.sorted, labelOf(key));
            key !in t.m ==> forall k :: i <= k < |t.sorted| ==> Less(labelOf(key), t.sorted[k].labels)
  {
    var q, ls := t.sorted, labelOf(key);
    var i := Position(q, ls);
    PositionSplits(q, ls);
    if key in t.m {
      var j :| 0 <= j < |q| && q[j] == Entry(key, ls, t.m[key]);
      LessIrreflexive(ls);
      assert j == i;
    } else {
      assert forall k :: 0 <= k < |q| ==> q[k] in q && q[k].key != key;
      forall k | i <= k < |q|
        ensures Less(ls, q[k].labels)
      {
        assert q[i] in q;
        assert labelOf(q[i].key) != ls;
        LessTotal(ls, q[i].labels);
        if k > i {
          LessTransitive(ls, q[i].labels, q[k].labels);
        }
      }
    }
  }

  lemma AddKeeps(labelOf: Labels, t: Table, key: Key, val: Var)
    requires Mirror(labelOf, t) && Apart(labelOf, t, key)
    ensures Mirror(labelOf, SetSpec(labelOf, t, key, val))
  {
    var q, ls := t.sorted, labelOf(key);
    var i, e := Position(q, ls), Entry(key, ls, val);
    FoundIff(labelOf, t, key);
    PositionSplits(q, ls);
    var q' := AddSpec(q, e);
    if key in t.m {
      UpdateKeeps(labelOf, t, i, val);
    } else {
      assert q' == q[..i] + [e] + q[i..];
      InsertKeeps(labelOf, t, i, e);
    }
  }

  lemma UpdateKeeps(labelOf: Labels, t: Table, i: nat, val: Var)
    requires Mirror(labelOf, t) && i < |t.sorted|
    ensures Mirror(labelOf, Table(t.m[t.sorted[i].key := val], t.sorted[i := t.sorted[i].(val := val)]))
  {
    var q := t.sorted;
    var q', m' := q[i := q[i].(val := val)], t.m[q[i].key := val];
    forall e | e in q'
      ensures e.labels == labelOf(e.key) && e.key in m' && m'[e.key] == e.val
    {
      var j :| 0 <= j < |q'| && q'[j] == e;
      assert q[j] in q && q[i] in q;
      if j != i {
        StrictKeysDiffer(q, labelOf, i, j);
      }
    }
    forall k | k in m'
      ensures Entry(k, labelOf(k), m'[k]) in q'
    {
      if k == q[i].key {
        assert q'[i] == Entry(k, labelOf(k), val);
      } else {
        var j :| 0 <= j < |q| && q[j] == Entry(k, labelOf(k), t.m[k]);
        assert q'[j] == q[j];
      }
    }
  }

  lemma StrictKeysDiffer(q: seq<Entry>, labelOf: Labels, i: nat, j: nat)
    requires Strict(q) && i < |q| && j < |q| && i != j && q[i].labels == labelOf(q[i].key) && q[j].labels == labelOf(q[j].key)
    ensures q[i].key != q[j].key
  {
    LessIrreflexive(q[i].labels);
  }

  lemma InsertedStrict(q: seq<Entry>, i: nat, e: Entry)
    requires Strict(q) && i <= |q|
    requires forall k :: 0 <= k < i ==> Less(q[k].labels, e.labels)
    requires forall k :: i <= k < |q| ==> Less(e.labels, q[k].labels)
    ensures Strict(q[..i] + [e] + q[i..])
  {
    var q' := q[..i] + [e] + q[i..];
    assert forall k :: 0 <= k < |q'| ==> q'[k] == if k < i then q[k] else if k == i then e else q[k - 1];
  }

  lemma InsertedMembers(q: seq<Entry>, i: nat, e: Entry, x: Entry)
    requires i <= |q|
    ensures x in q[..i] + [e] + q[i..] <==> x == e || x in q
  {
    assert q == q[..i] + q[i..];
  }

  lemma InsertKeeps(labelOf: Labels, t: Table, i: nat, e: Entry)
    requires Mirror(labelOf, t) && i <= |t.sorted| && e.key !in t.m && e.labels == labelOf(e.key)
    requires forall k :: 0 <= k < i ==> Less(t.sorted[k].labels, e.labels)
    requires forall k :: i <= k < |t.sorted| ==> Less(e.labels, t.sorted[k].labels)
    ensures Mirror(labelOf, Table(t.m[e.key := e.val], t.sorted[..i] + [e] + t.sorted[i..]))
  {
    var q := t.sorted;
    var q', m' := q[..i] + [e] + q[i..], t.m[e.key := e.val];
    InsertedStrict(q, i, e);
    forall x | x in q'
      ensures x.labels == labelOf(x.key) && x.key in m' && m'[x.key] == x.val
    {
      InsertedMembers(q, i, e, x);
    }
    forall k | k in m'
      ensures Entry(k, labelOf(k), m'[k]) in q'
    {
      InsertedMembers(q, i, e, Entry(k, labelOf(k), m'[k]));
    }
  }

  lemma RemovedStrict(q: seq<Entry>, i: nat, q': seq<Entry>)
    requires Strict(q) && i < |q| && q' == q[..i] + q[i + 1..]
    ensures Strict(q')
  {
    assert forall j :: 0 <= j < |q'| ==> q'[j] == q[if j < i then j else j + 1];
  }

  lemma RemovedList(labelOf: Labels, q: seq<Entry>, i: nat, q': seq<Entry>, e: Entry)
    requires Strict(q) && i < |q| && q' == q[..i] + q[i + 1..] && forall x | x in q :: x.labels == labelOf(x.key)
    ensures e in q' <==> e in q && e.key != q[i].key
  {
    assert q[i] in q;
    if e in q' {
      var j: nat :| j < |q'| && q'[j] == e;
      var n := if j < i then j else j + 1;
      assert q[n] == e && q[n] in q;
      StrictKeysDiffer(q, labelOf, i, n);
    }
    if e in q && e.key != q[i].key {
      var j: nat :| j < |q| && q[j] == e;
      assert q'[if j < i then j else j - 1] == e;
    }
  }

  lemma DeleteKeeps(labelOf: Labels, t: Table, key: Key)
    requires Mirror(labelOf, t) && Apart(labelOf, t, key)
    ensures Mirror(labelOf, DeleteSpec(labelOf, t, key)) && DeleteSpec(labelOf, t, key).m == t.m - {key}
  {
    FoundIff(labelOf, t, key);
    if key in t.m {
      RemoveKeeps(labelOf, t, Position(t.sorted, labelOf(key)));
    } else {
      assert t.m - {key} == t.m;
    }
  }

  lemma RemoveKeeps(labelOf: Labels, t: Table, i: nat)
    requires Mirror(labelOf, t) && i < |t.sorted|
    ensures Mirror(labelOf, Table(t.m - {t.sorted[i].key}, t.sorted[..i] + t.sorted[i + 1..]))
  {
    var q, q' := t.sorted, t.sorted[..i] + t.sorted[i + 1..];
    RemovedStrict(q, i, q');
    forall e | e in q' ensures e in q && e.key != q[i].key { RemovedList(labelOf, q, i, q', e); }
    forall k | k in t.m - {q[i].key}
      ensures Entry(k, labelOf(k), t.m[k]) in q'
    {
      RemovedList(labelOf, q, i, q', Entry(k, labelOf(k), t.m[k]));
    }
  }

  // ---- Every run ----

  datatype Op = OpSet(key: Key, val: Var) | OpFill(key: Key, val: Var) | OpDelete(key: Key) | OpInit

  function After(labelOf: Labels, run: seq<Op>): Table {
    if run == [] then Table(map[], [])
    else
      var t := After(labelOf, run[..|run| - 1]);
      match Last(run)
      case OpSet(key, val) => SetSpec(labelOf, t, key, val)
      case OpFill(key, val) => FillSpec(labelOf, t, key, val)
      case OpDelete(key) => DeleteSpec(labelOf, t, key)
      case OpInit => Table(map[], [])
  }

  // k is a key of the run.
  ghost predicate Named(run: seq<Op>, k: Key) { exists i :: 0 <= i < |run| && !run[i].OpInit? && run[i].key == k }

  lemma NamedEarlier(run: seq<Op>, k: Key)
    requires run != [] && Named(run[..|run| - 1], k)
    ensures Named(run, k)
  {
    var i :| 0 <= i < |run| - 1 && !run[i].OpInit? && run[i].key == k;
  }

  // The run's keys have distinct labels.
  ghost predicate DistinctLabels(labelOf: Labels, run: seq<Op>) {
    forall a, b {:trigger Named(run, a), Named(run, b)} :: Named(run, a) && Named(run, b) && labelOf(a) == labelOf(b) ==> a == b
  }

  lemma {:induction false} OnlyNamed(labelOf: Labels, run: seq<Op>, k: Key)
    requires k in After(labelOf, run).m
    ensures Named(run, k)
  {
    var before, op := run[..|run| - 1], Last(run);
    if !op.OpInit? && op.key == k {
      assert run[|run| - 1].key == k;
    } else {
      OnlyNamed(labelOf, before, k);
      NamedEarlier(run, k);
    }
  }

  lemma {:induction false} RunMirrors(labelOf: Labels, run: seq<Op>)
    requires DistinctLabels(labelOf, run)
    ensures Mirror(labelOf, After(labelOf, run)) && Sorted(After(labelOf, run).sorted)
  {
    if run != [] {
      var before, op := run[..|run| - 1], Last(run);
      forall k | Named(before, k) ensures Named(run, k) { NamedEarlier(run, k); }
      RunMirrors(labelOf, before);
      var t := After(labelOf, before);
      if !op.OpInit? {
        assert run[|run| - 1].key == op.key;
        assert Named(run, op.key);
        forall k | k in t.m ensures Named(run, k) { OnlyNamed(labelOf, before, k); }
        assert Apart(labelOf, t, op.key);
      }
      match op {
        case OpSet(key, val) => AddKeeps(labelOf, t, key, val);
        case OpFill(key, val) => if key !in t.m { AddKeeps(labelOf, t, key, val); }
        case OpDelete(key) => DeleteKeeps(labelOf, t, key);
        case OpInit =>
      }
    }
    StrictSorted(After(labelOf, run).sorted);
  }

  // After every run over keys of the map's type the list mirrors the map:
  // every entry once, with its present value, in strict order of the labels.
  lemma EveryRunMirrors(quote: Quote, shape: seq<Field>, run: seq<Op>)
    requires Readable(quote) && forall i :: 0 <= i < |run| && !run[i].OpInit? ==> Conforms(shape, run[i].key)
    ensures Mirror(Labelling(quote, shape), After(Labelling(quote, shape), run))
  {
    var labelOf := Labelling(quote, shape);
    forall a, b | Named(run, a) && Named(run, b) && labelOf(a) == labelOf(b) ensures a == b {
      LabelsInjective(quote, shape, a, b);
    }
    RunMirrors(labelOf, run);
  }

  // What the list needs of a labelling in general.  Were two keys to have the
  // same labels, setting the first, the second and the first again would leave
  // the first value in the list.
  lemma SameLabelsDiverge(labelOf: Labels, a: Key, b: Key)
    requires a != b && labelOf(a) == labelOf(b)
    ensures var t := After(labelOf, [OpSet(a, 0), OpSet(b, 0), OpSet(a, 1)]);
            t.m[a] == 1 && Entry(a, labelOf(a), 0) in t.sorted && !Mirror(labelOf, t)
  {
    var ls := labelOf(a);
    LessIrreflexive(ls);
    var r1, r2, r3 := [OpSet(a, 0)], [OpSet(a, 0), OpSet(b, 0)], [OpSet(a, 0), OpSet(b, 0), OpSet(a, 1)];
    assert r1[..0] == [] && r2[..1] == r1 && r3[..2] == r2;
    assert After(labelOf, r1).sorted == [Entry(a, ls, 0)];
    assert After(labelOf, r2).sorted == [Entry(b, ls, 0), Entry(a, ls, 0)];
    var t := After(labelOf, r3);
    assert t.sorted == [Entry(a, ls, 1), Entry(b, ls, 0), Entry(a, ls, 0)];
    assert t.sorted[2] == Entry(a, ls, 0);
  }

  // The list mirrors the map after every run exactly when no two keys share
  // their labels.
  lemma MirrorIff(labelOf: Labels)
    ensures (forall run :: Mirror(labelOf, After(labelOf, run))) <==> Injective(labelOf)
  {
    if Injective(labelOf) {
      forall run
        ensures Mirror(labelOf, After(labelOf, run))
      {
        RunMirrors(labelOf, run);
      }
    } else {
      var a, b :| labelOf(a) == labelOf(b) && a != b;
      SameLabelsDiverge(labelOf, a, b);
    }
  }
}
