/** ingestion.py: what a form submission is normalized to, and the text its fingerprint is taken of. */
module Ingestion {
  import opened Prelude
  import opened Models
  import opened Listing
  import Json

  datatype Item = Item(name: string, value: string)

  datatype Limits = Limits(maxFields: nat, maxName: nat, maxValue: nat)

  datatype Refusal =
    | TooManyFields(limit: nat, received: nat)
    | EmptyName
    | NameTooLong(limit: nat, received: nat)
    | ControlInName
    | ValueTooLong(field: string, limit: nat, received: nat)
    | NulInValue(field: string)
    | EmptySubmission

  predicate Control(c: char) {
    c as int <= 0x1f || 0x7f <= c as int <= 0x9f
  }

  /** What an item is refused for, the name before the value. */
  function ItemRefusal(item: Item, limits: Limits): Option<Refusal> {
    var name, value := item.name, item.value;
    if name == "" then Some(EmptyName)
    else if |name| > limits.maxName then Some(NameTooLong(limits.maxName, |name|))
    else if exists i | 0 <= i < |name| :: Control(name[i]) then Some(ControlInName)
    else if |value| > limits.maxValue then Some(ValueTooLong(name, limits.maxValue, |value|))
    else if '\0' in value then Some(NulInValue(name))
    else None
  }

  /** The rules an item is held to, whatever order they are checked in. */
  lemma AcceptedExactly(item: Item, limits: Limits)
    ensures ItemRefusal(item, limits).None? <==>
              && 1 <= |item.name| <= limits.maxName && |item.value| <= limits.maxValue
              && (forall c | c in item.name :: 0x20 <= c as int < 0x7f || c as int > 0x9f)
              && (forall c | c in item.value :: c as int != 0)
  {
    assert forall i | 0 <= i < |item.name| :: item.name[i] in item.name;
  }

  predicate NameFits(name: string, limits: Limits) {
    name != "" && |name| <= limits.maxName
  }

  /** Which refusal an item meets, with its numbers: the name's before the value's, and lengths before characters. */
  lemma RefusedExactly(item: Item, limits: Limits, why: Refusal)
    ensures ItemRefusal(item, limits) == Some(why) <==>
              match why
              case EmptyName => |item.name| == 0
              case NameTooLong(limit, received) => limit == limits.maxName < received == |item.name|
              case ControlInName => NameFits(item.name, limits) && Controlled(item.name)
              case ValueTooLong(field, limit, received) =>
                && NameFits(item.name, limits) && !Controlled(item.name) && field == item.name
                && limit == limits.maxValue < received == |item.value|
              case NulInValue(field) =>
                && NameFits(item.name, limits) && !Controlled(item.name) && field == item.name
                && |item.value| <= limits.maxValue && exists c :: c in item.value && c as int == 0
              case _ => false
  {
    assert forall i | 0 <= i < |item.name| :: item.name[i] in item.name;
  }

  ghost predicate Controlled(name: string) {
    exists c :: c in name && (c as int < 0x20 || 0x7f <= c as int <= 0x9f)
  }

  // ---------------------------------------------------------------- grouping

  function NamesOf(items: seq<Item>): seq<string> {
    seq(|items|, i requires 0 <= i < |items| => items[i].name)
  }

  function NamesIn(fields: seq<Field>): seq<string> {
    seq(|fields|, i requires 0 <= i < |fields| => fields[i].name)
  }

  /** The values submitted under one name, in arrival order. */
  function ValuesOf(items: seq<Item>, name: string): seq<string>
    decreases |items|
  {
    if items == [] then []
    else
      var last := items[|items| - 1];
      ValuesOf(items[..|items| - 1], name) + if last.name == name then [last.value] else []
  }

  lemma ValuesOfOne(item: Item, name: string)
    ensures ValuesOf([item], name) == if item.name == name then [item.value] else []
  {
    assert [item][..0] == [];
    assert ValuesOf([], name) == [];
  }

  /** The values of one list after another: nothing is dropped, added or reordered. */
  lemma {:induction false} ValuesComeInArrivalOrder(a: seq<Item>, b: seq<Item>, name: string)
    ensures ValuesOf(a + b, name) == ValuesOf(a, name) + ValuesOf(b, name)
    decreases |b|
  {
    if b == [] {
      assert a + b == a;
      assert ValuesOf(a, name) + [] == ValuesOf(a, name);
    } else {
      var n := |b| - 1;
      var own := if b[n].name == name then [b[n].value] else [];
      ValuesComeInArrivalOrder(a, b[..n], name);
      assert b[..n] + [b[n]] == b;
      ValuesOfAppends(b[..n], b[n], name);
      Associative(a, b[..n], [b[n]]);
      ValuesOfAppends(a + b[..n], b[n], name);
      Associative(ValuesOf(a, name), ValuesOf(b[..n], name), own);
    }
  }

  /** Each name once, in the order first met, with every value it arrived with in arrival order. */
  ghost predicate Groups(fields: seq<Field>, items: seq<Item>) {
    && FirstMetOrder(NamesIn(fields), NamesOf(items))
    && forall i | 0 <= i < |fields| :: fields[i].values == ValuesOf(items, fields[i].name)
  }

  function FieldCount(fields: seq<Field>): nat {
    if fields == [] then 0 else |fields[0].values| + FieldCount(fields[1..])
  }

  /** The dictionary update of the loop. */
  function AddValue(fields: seq<Field>, item: Item): (after: seq<Field>)
    ensures after != [] && |fields| <= |after| <= |fields| + 1
  {
    if fields == [] then [Field(item.name, [item.value])]
    else if fields[0].name == item.name then [Field(item.name, fields[0].values + [item.value])] + fields[1..]
    else [fields[0]] + AddValue(fields[1..], item)
  }

  lemma NamesInUnfolds(fields: seq<Field>)
    requires fields != []
    ensures NamesIn(fields) == [fields[0].name] + NamesIn(fields[1..])
  {
  }

  lemma {:induction false} AddValueNames(fields: seq<Field>, item: Item)
    ensures NamesIn(AddValue(fields, item)) == Put(NamesIn(fields), item.name)
  {
    var after := AddValue(fields, item);
    NamesInUnfolds(after);
    if fields != [] {
      NamesInUnfolds(fields);
      assert after[1..] == if fields[0].name == item.name then fields[1..] else AddValue(fields[1..], item);
      if fields[0].name != item.name { AddValueNames(fields[1..], item); }
    }
  }

  predicate DistinctNames(fields: seq<Field>) {
    forall i, j | 0 <= i < j < |fields| :: fields[i].name != fields[j].name
  }

  lemma {:induction false} AddValueAt(fields: seq<Field>, item: Item, i: nat)
    requires DistinctNames(fields) && i < |AddValue(fields, item)|
    ensures AddValue(fields, item)[i]
            == if i == |fields| then Field(item.name, [item.value])
               else if fields[i].name == item.name then Field(item.name, fields[i].values + [item.value])
               else fields[i]
  {
    if fields != [] && fields[0].name != item.name && i > 0 {
      AddValueAt(fields[1..], item, i - 1);
    }
  }

  lemma AddValueLength(fields: seq<Field>, item: Item)
    ensures |AddValue(fields, item)| == if item.name in NamesIn(fields) then |fields| else |fields| + 1
  {
    AddValueNames(fields, item);
    assert |AddValue(fields, item)| == |NamesIn(AddValue(fields, item))|;
  }

  lemma {:induction false} AddValueCounts(fields: seq<Field>, item: Item)
    ensures FieldCount(AddValue(fields, item)) == FieldCount(fields) + 1
  {
    if fields != [] && fields[0].name != item.name { AddValueCounts(fields[1..], item); }
  }

  lemma NoValuesUnderNewName(items: seq<Item>, name: string)
    requires name !in NamesOf(items)
    ensures ValuesOf(items, name) == []
    decreases |items|
  {
    if items != [] {
      var n := |items| - 1;
      assert NamesOf(items)[n] == items[n].name;
      forall x | x in NamesOf(items[..n]) ensures x in NamesOf(items) {
        var i :| 0 <= i < n && NamesOf(items[..n])[i] == x;
        assert NamesOf(items)[i] == x;
      }
      NoValuesUnderNewName(items[..n], name);
    }
  }

  lemma NamesOfAppends(items: seq<Item>, item: Item)
    ensures NamesOf(items + [item]) == NamesOf(items) + [item.name]
  {
  }

  lemma ValuesOfAppends(items: seq<Item>, item: Item, name: string)
    ensures ValuesOf(items + [item], name) == ValuesOf(items, name) + if item.name == name then [item.value] else []
  {
    assert (items + [item])[..|items|] == items;
  }

  lemma GroupsAreDistinct(fields: seq<Field>, items: seq<Item>)
    requires Groups(fields, items)
    ensures DistinctNames(fields)
  {
    OrderHasNoRepeats(NamesIn(fields), NamesOf(items));
    assert forall i | 0 <= i < |fields| :: NamesIn(fields)[i] == fields[i].name;
  }

  lemma AddValueKeepsValues(fields: seq<Field>, items: seq<Item>, item: Item, i: nat)
    requires Groups(fields, items) && i < |AddValue(fields, item)|
    ensures var f := AddValue(fields, item)[i]; f.values == ValuesOf(items + [item], f.name)
  {
    GroupsAreDistinct(fields, items);
    AddValueAt(fields, item, i);
    AddValueLength(fields, item);
    ValuesOfAppends(items, item, AddValue(fields, item)[i].name);
    if i == |fields| { NoValuesUnderNewName(items, item.name); }
  }

  /** One turn of the loop keeps the grouping. */
  lemma AddValueGroups(fields: seq<Field>, items: seq<Item>, item: Item)
    requires Groups(fields, items)
    ensures Groups(AddValue(fields, item), items + [item])
  {
    NamesOfAppends(items, item);
    PutKeepsOrder(NamesIn(fields), NamesOf(items), item.name);
    AddValueNames(fields, item);
    forall i | 0 <= i < |AddValue(fields, item)|
      ensures AddValue(fields, item)[i].values == ValuesOf(items + [item], AddValue(fields, item)[i].name)
    {
      AddValueKeepsValues(fields, items, item, i);
    }
  }

  /** The items determine the grouping. */
  lemma GroupingIsUnique(a: seq<Field>, b: seq<Field>, items: seq<Item>)
    requires Groups(a, items) && Groups(b, items)
    ensures a == b
  {
    FirstMetIsUnique(NamesIn(a), NamesIn(b), NamesOf(items));
    assert |a| == |NamesIn(a)| == |b|;
    forall i | 0 <= i < |a| ensures a[i] == b[i] {
      assert NamesIn(a)[i] == NamesIn(b)[i];
    }
  }

  ghost predicate Acceptable(items: seq<Item>, limits: Limits) {
    forall i | 0 <= i < |items| :: ItemRefusal(items[i], limits).None?
  }

  /** The refusal of the first item that has one. */
  ghost predicate FirstRefused(items: seq<Item>, limits: Limits, why: Refusal) {
    exists i | 0 <= i < |items| :: Acceptable(items[..i], limits) && ItemRefusal(items[i], limits) == Some(why)
  }

  lemma RefusedHere(items: seq<Item>, limits: Limits, k: nat, why: Refusal)
    requires k < |items| && Acceptable(items[..k], limits) && ItemRefusal(items[k], limits) == Some(why)
    ensures !Acceptable(items, limits) && FirstRefused(items, limits, why)
  {
  }

  lemma AcceptedHere(items: seq<Item>, limits: Limits, k: nat)
    requires k < |items| && Acceptable(items[..k], limits) && ItemRefusal(items[k], limits).None?
    ensures Acceptable(items[..k + 1], limits)
  {
    assert forall i | 0 <= i < k :: items[..k + 1][i] == items[..k][i];
  }

  method BuildSubmission(items: seq<Item>, limits: Limits) returns (r: Result<seq<Field>, Refusal>)
    ensures r.Ok? <==> 0 < |items| <= limits.maxFields && Acceptable(items, limits)
    ensures r.Ok? ==> Groups(r.value, items) && FieldCount(r.value) == |items|
    ensures r.Err? && |items| > limits.maxFields ==> r.error == TooManyFields(limits.maxFields, |items|)
    ensures r.Err? && |items| <= limits.maxFields ==>
              if items == [] then r.error == EmptySubmission else FirstRefused(items, limits, r.error)
  {
    if |items| > limits.maxFields {
      return Err(TooManyFields(limits.maxFields, |items|));
    }
    var fields: seq<Field> := [];
    for k := 0 to |items|
      invariant Acceptable(items[..k], limits)
      invariant fields == [] <==> k == 0
      invariant Groups(fields, items[..k]) && FieldCount(fields) == k
    {
      var refusal := ItemRefusal(items[k], limits);
      if refusal.Some? {
        RefusedHere(items, limits, k, refusal.value);
        return Err(refusal.value);
      }
      AcceptedHere(items, limits, k);
      AddValueGroups(fields, items[..k], items[k]);
      AddValueCounts(fields, items[k]);
      assert items[..k] + [items[k]] == items[..k + 1];
      fields := AddValue(fields, items[k]);
    }
    assert items[..|items|] == items;
    if fields == [] {
      return Err(EmptySubmission);
    }
    r := Ok(fields);
  }

  // ---------------------------------------------------------------- the canonical form

  function Texts(values: seq<string>): Json.Json {
    Json.Arr(seq(|values|, i requires 0 <= i < |values| => Json.Str(values[i])))
  }

  lemma TextsAreInjective(a: seq<string>, b: seq<string>)
    requires Texts(a) == Texts(b)
    ensures a == b
  {
    assert |Texts(a).items| == |a| && |Texts(b).items| == |b|;
    forall i | 0 <= i < |a| ensures a[i] == b[i] {
      assert Texts(a).items[i] == Texts(b).items[i];
    }
  }

  function Pair(f: Field): Json.Json {
    Json.Arr([Json.Str(f.name), Texts(f.values)])
  }

  function Pairs(fields: seq<Field>): Json.Json {
    Json.Arr(seq(|fields|, i requires 0 <= i < |fields| => Pair(fields[i])))
  }

  /** The text the fingerprint is a digest of. */
  function Canonical(fields: seq<Field>): string {
    Json.Encode(Pairs(fields), false)
  }

  /** The canonical text reads, by RFC 8259, as one pair for each field in order: its name, then its values in order. */
  lemma CanonicalReads(fields: seq<Field>)
    ensures var read := Json.Decode(Canonical(fields));
            && read.Some? && read.value.Arr? && |read.value.items| == |fields|
            && forall i | 0 <= i < |fields| ::
                 var pair := read.value.items[i];
                 && pair.Arr? && |pair.items| == 2 && pair.items[0] == Json.Str(fields[i].name)
                 && IsTexts(pair.items[1], fields[i].values)
  {
    Json.RoundTrip(Pairs(fields), false);
  }

  /** The text itself, for one field with one value: compact, and with nothing escaped for being outside ASCII. */
  lemma CanonicalOfOne(name: string, value: string)
    ensures Canonical([Field(name, [value])])
            == "[[" + Json.Quoted(name, false) + ",[" + Json.Quoted(value, false) + "]]]"
  {
    var f := Field(name, [value]);
    assert Pairs([f]) == Json.Arr([Pair(f)]) && Texts([value]) == Json.Arr([Json.Str(value)]);
    Json.PrintsOne(Pair(f), false);
    Json.PrintsPairs(Json.Str(name), Texts([value]), false);
    Json.PrintsOne(Json.Str(value), false);
    Regroup(Json.Quoted(name, false), Json.Quoted(value, false));
  }

  lemma Regroup(n: string, v: string)
    ensures "[" + (("[" + (n + ("," + (("[" + v + "]") + "]")))) + "]") == "[[" + n + ",[" + v + "]]]"
  {
  }

  /** An array of exactly these strings, in this order. */
  predicate IsTexts(j: Json.Json, values: seq<string>) {
    j.Arr? && |j.items| == |values| && forall k | 0 <= k < |values| :: j.items[k] == Json.Str(values[k])
  }

  lemma PairIsInjective(a: Field, b: Field)
    requires Pair(a) == Pair(b)
    ensures a == b
  {
    assert Pair(a).items[0] == Pair(b).items[0] && Pair(a).items[1] == Pair(b).items[1];
    TextsAreInjective(a.values, b.values);
  }

  /**
   * Two field mappings have one canonical text exactly when they have the same names in the same order with the same
   * values.
   */
  lemma CanonicalIsInjective(a: seq<Field>, b: seq<Field>)
    ensures Canonical(a) == Canonical(b) <==> a == b
  {
    if Canonical(a) == Canonical(b) {
      Json.Injective(Pairs(a), Pairs(b), false, false);
      assert |Pairs(a).items| == |a| && |Pairs(b).items| == |b|;
      forall i | 0 <= i < |a| ensures a[i] == b[i] {
        assert Pairs(a).items[i] == Pairs(b).items[i];
        PairIsInjective(a[i], b[i]);
      }
    }
  }

  function Columns(items: seq<Item>): seq<string> {
    Distinct(NamesOf(items))
  }

  /** What an idempotent retry must repeat: the names in first-met order, and each name's values in arrival order. */
  ghost predicate SameForm(x: seq<Item>, y: seq<Item>) {
    && Columns(x) == Columns(y)
    && forall name | name in NamesOf(x) :: ValuesOf(x, name) == ValuesOf(y, name)
  }

  /** Short of a digest collision, two accepted forms are the same request exactly when they are the same form. */
  lemma FingerprintsAgreeExactly(x: seq<Item>, y: seq<Item>, fx: seq<Field>, fy: seq<Field>)
    requires Groups(fx, x) && Groups(fy, y)
    ensures Canonical(fx) == Canonical(fy) <==> SameForm(x, y)
  {
    CanonicalIsInjective(fx, fy);
    DistinctIsFirstMet(NamesOf(x));
    DistinctIsFirstMet(NamesOf(y));
    FirstMetIsUnique(NamesIn(fx), Distinct(NamesOf(x)), NamesOf(x));
    FirstMetIsUnique(NamesIn(fy), Distinct(NamesOf(y)), NamesOf(y));
    assert |NamesIn(fx)| == |fx| && |NamesIn(fy)| == |fy|;
    if fx == fy {
      forall name | name in NamesOf(x) ensures ValuesOf(x, name) == ValuesOf(y, name) {
        var i :| 0 <= i < |fx| && NamesIn(fx)[i] == name;
        assert fx[i].name == name;
      }
    }
    if SameForm(x, y) {
      forall i | 0 <= i < |fx| ensures fx[i] == fy[i] {
        assert NamesIn(fx)[i] == NamesIn(fy)[i];
        assert fx[i].name in NamesIn(fx);
      }
    }
  }

  lemma DistinctAppends(s: seq<string>, k: string)
    ensures Distinct(s + [k]) == Put(Distinct(s), k)
  {
    assert (s + [k])[..|s|] == s;
  }

  lemma ColumnsAppend(items: seq<Item>, item: Item)
    ensures Columns(items + [item]) == Put(Columns(items), item.name)
  {
    NamesOfAppends(items, item);
    DistinctAppends(NamesOf(items), item.name);
  }

  lemma ColumnsOfTwoMore(items: seq<Item>, a: Item, b: Item)
    ensures Columns(items + [a, b]) == Put(Put(Columns(items), a.name), b.name)
  {
    assert items + [a, b] == items + [a] + [b];
    ColumnsAppend(items, a);
    ColumnsAppend(items + [a], b);
  }

  lemma {:induction false} LaterColumns(x: seq<Item>, y: seq<Item>, after: seq<Item>)
    ensures Columns(x) <= Columns(x + after)
    ensures Columns(x) == Columns(y) ==> Columns(x + after) == Columns(y + after)
    decreases |after|
  {
    if after == [] {
      assert x + after == x && y + after == y;
    } else {
      var n := |after| - 1;
      LaterColumns(x, y, after[..n]);
      assert x + after == (x + after[..n]) + [after[n]] && y + after == (y + after[..n]) + [after[n]];
      ColumnsAppend(x + after[..n], after[n]);
      ColumnsAppend(y + after[..n], after[n]);
    }
  }

  lemma {:induction false} LaterValues(x: seq<Item>, y: seq<Item>, after: seq<Item>, name: string)
    requires ValuesOf(x, name) == ValuesOf(y, name)
    ensures ValuesOf(x + after, name) == ValuesOf(y + after, name)
    decreases |after|
  {
    if after == [] {
      assert x + after == x && y + after == y;
    } else {
      var n := |after| - 1;
      LaterValues(x, y, after[..n], name);
      assert x + after == (x + after[..n]) + [after[n]] && y + after == (y + after[..n]) + [after[n]];
      ValuesOfAppends(x + after[..n], after[n], name);
      ValuesOfAppends(y + after[..n], after[n], name);
    }
  }

  lemma SwapKeepsValues(before: seq<Item>, a: Item, b: Item, name: string)
    requires a.name != b.name
    ensures ValuesOf(before + [a, b], name) == ValuesOf(before + [b, a], name)
  {
    assert before + [a, b] == before + [a] + [b] && before + [b, a] == before + [b] + [a];
    ValuesOfAppends(before, a, name);
    ValuesOfAppends(before, b, name);
    ValuesOfAppends(before + [a], b, name);
    ValuesOfAppends(before + [b], a, name);
  }

  /**
   * Two neighbouring items under different names may trade places within one request exactly when one of the names was
   * met before.
   */
  lemma InterleavingIsForgottenExactly(before: seq<Item>, a: Item, b: Item, after: seq<Item>)
    requires a.name != b.name
    ensures SameForm(before + [a, b] + after, before + [b, a] + after)
            <==> a.name in NamesOf(before) || b.name in NamesOf(before)
  {
    var x, y := before + [a, b], before + [b, a];
    DistinctIsFirstMet(NamesOf(before));
    ColumnsOfTwoMore(before, a, b);
    ColumnsOfTwoMore(before, b, a);
    LaterColumns(x, y, after);
    LaterColumns(y, x, after);
    if a.name in NamesOf(before) || b.name in NamesOf(before) {
      forall name ensures ValuesOf(x + after, name) == ValuesOf(y + after, name) {
        SwapKeepsValues(before, a, b, name);
        LaterValues(x, y, after, name);
      }
    } else {
      var n := |Columns(before)|;
      assert Columns(x)[n] == a.name && Columns(y)[n] == b.name;
      assert Columns(x + after)[n] == a.name && Columns(y + after)[n] == b.name;
    }
  }
}
