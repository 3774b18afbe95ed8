/** Translating the legal documents: the strings of a tree are collected, translated one by one, and put back. */
module LegalText {
  import opened Options
  import opened Sequences

  datatype Json = Str(text: string) | Scalar(literal: string) | List(items: Items) | Dict(fields: Fields)
  datatype Items = NoItems | Items(head: Json, tail: Items)
  datatype Fields = NoFields | Fields(key: string, value: Json, rest: Fields)

  const SKIP_KEYS: set<string> := {"href", "type", "variant", "email", "mailto", "to"}

  // ---- the strings of a tree, in order ----

  function Strings(j: Json): seq<string> {
    match j
    case Str(text) => [text]
    case Scalar(_) => []
    case List(items) => StringsOfItems(items)
    case Dict(fields) => StringsOfFields(fields)
  }

  function StringsOfItems(items: Items): seq<string> {
    if items.NoItems? then [] else Strings(items.head) + StringsOfItems(items.tail)
  }

  function StringsOfFields(fields: Fields): seq<string> {
    if fields.NoFields? then []
    else (if fields.key in SKIP_KEYS then [] else Strings(fields.value)) + StringsOfFields(fields.rest)
  }

  // ---- putting strings back ----

  /** The tree with its strings replaced by the next ones of `ss`, and what is left of `ss`; none if `ss` runs out. */
  function Apply(j: Json, ss: seq<string>): Option<(Json, seq<string>)> {
    match j
    case Str(_) => if ss == [] then None else Some((Str(ss[0]), ss[1..]))
    case Scalar(_) => Some((j, ss))
    case List(items) =>
      (match ApplyItems(items, ss)
       case None => None
       case Some(r) => Some((List(r.0), r.1)))
    case Dict(fields) =>
      (match ApplyFields(fields, ss)
       case None => None
       case Some(r) => Some((Dict(r.0), r.1)))
  }

  function ApplyItems(items: Items, ss: seq<string>): Option<(Items, seq<string>)> {
    if items.NoItems? then Some((items, ss))
    else
      match Apply(items.head, ss)
      case None => None
      case Some(h) =>
        match ApplyItems(items.tail, h.1)
        case None => None
        case Some(t) => Some((Items(h.0, t.0), t.1))
  }

  function ApplyFields(fields: Fields, ss: seq<string>): Option<(Fields, seq<string>)> {
    if fields.NoFields? then Some((fields, ss))
    else
      match if fields.key in SKIP_KEYS then Some((fields.value, ss)) else Apply(fields.value, ss)
      case None => None
      case Some(h) =>
        match ApplyFields(fields.rest, h.1)
        case None => None
        case Some(t) => Some((Fields(fields.key, h.0, t.0), t.1))
  }

  // ---- what translation may change ----

  /** The same keys, literals and skipped values in the same places; only other strings may differ. */
  predicate SameShape(a: Json, b: Json) {
    match a
    case Str(_) => b.Str?
    case Scalar(_) => b == a
    case List(items) => b.List? && SameItems(items, b.items)
    case Dict(fields) => b.Dict? && SameFields(fields, b.fields)
  }

  predicate SameItems(a: Items, b: Items) {
    if a.NoItems? then b.NoItems? else b.Items? && SameShape(a.head, b.head) && SameItems(a.tail, b.tail)
  }

  predicate SameFields(a: Fields, b: Fields) {
    if a.NoFields? then b.NoFields?
    else
      && b.Fields? && b.key == a.key && SameFields(a.rest, b.rest)
      && (if a.key in SKIP_KEYS then b.value == a.value else SameShape(a.value, b.value))
  }

  // ---- the round trips ----

  /** Applying succeeds exactly when there are enough strings, takes as many as were collected, and gives the tree
      of the same shape that holds them. */
  lemma {:induction false} ApplyTakes(j: Json, ss: seq<string>)
    ensures Apply(j, ss).Some? <==> |ss| >= |Strings(j)|
    ensures Apply(j, ss).Some? ==>
      var (k, rest) := Apply(j, ss).value;
      ss == Strings(k) + rest && |Strings(k)| == |Strings(j)| && SameShape(j, k)
    decreases j
  {
    match j {
      case Str(_) => assert ss != [] ==> ss == [ss[0]] + ss[1..];
      case Scalar(_) =>
      case List(items) => ApplyItemsTakes(items, ss);
      case Dict(fields) => ApplyFieldsTakes(fields, ss);
    }
  }

  lemma {:induction false} ApplyItemsTakes(items: Items, ss: seq<string>)
    ensures ApplyItems(items, ss).Some? <==> |ss| >= |StringsOfItems(items)|
    ensures ApplyItems(items, ss).Some? ==>
      var (k, rest) := ApplyItems(items, ss).value;
      ss == StringsOfItems(k) + rest && |StringsOfItems(k)| == |StringsOfItems(items)| && SameItems(items, k)
    decreases items
  {
    if items.Items? {
      ApplyTakes(items.head, ss);
      var h := Apply(items.head, ss);
      if h.Some? {
        ApplyItemsTakes(items.tail, h.value.1);
      }
    }
  }

  lemma {:induction false} ApplyFieldsTakes(fields: Fields, ss: seq<string>)
    ensures ApplyFields(fields, ss).Some? <==> |ss| >= |StringsOfFields(fields)|
    ensures ApplyFields(fields, ss).Some? ==>
      var (k, rest) := ApplyFields(fields, ss).value;
      ss == StringsOfFields(k) + rest && |StringsOfFields(k)| == |StringsOfFields(fields)| && SameFields(fields, k)
    decreases fields
  {
    if fields.Fields? {
      if fields.key in SKIP_KEYS {
        ApplyFieldsTakes(fields.rest, ss);
      } else {
        ApplyTakes(fields.value, ss);
        var h := Apply(fields.value, ss);
        if h.Some? {
          ApplyFieldsTakes(fields.rest, h.value.1);
        }
      }
    }
  }

  /** A tree is determined by its shape and its strings. */
  lemma {:induction false} ShapeAndStringsDetermine(a: Json, b: Json, c: Json)
    requires SameShape(a, b) && SameShape(a, c) && Strings(b) == Strings(c)
    ensures b == c
    decreases a
  {
    match a {
      case Str(_) => assert Strings(b)[0] == b.text && Strings(c)[0] == c.text;
      case Scalar(_) =>
      case List(items) => ItemsDetermine(items, b.items, c.items);
      case Dict(fields) => FieldsDetermine(fields, b.fields, c.fields);
    }
  }

  lemma {:induction false} ShapeFixesCount(a: Json, b: Json)
    requires SameShape(a, b)
    ensures |Strings(a)| == |Strings(b)|
    decreases a
  {
    match a {
      case Str(_) =>
      case Scalar(_) =>
      case List(items) => ItemsFixCount(items, b.items);
      case Dict(fields) => FieldsFixCount(fields, b.fields);
    }
  }

  lemma {:induction false} ItemsFixCount(a: Items, b: Items)
    requires SameItems(a, b)
    ensures |StringsOfItems(a)| == |StringsOfItems(b)|
    decreases a
  {
    if a.Items? {
      ShapeFixesCount(a.head, b.head);
      ItemsFixCount(a.tail, b.tail);
    }
  }

  lemma {:induction false} FieldsFixCount(a: Fields, b: Fields)
    requires SameFields(a, b)
    ensures |StringsOfFields(a)| == |StringsOfFields(b)|
    decreases a
  {
    if a.Fields? {
      FieldsFixCount(a.rest, b.rest);
      if a.key !in SKIP_KEYS {
        ShapeFixesCount(a.value, b.value);
      }
    }
  }

  lemma {:induction false} ItemsDetermine(a: Items, b: Items, c: Items)
    requires SameItems(a, b) && SameItems(a, c) && StringsOfItems(b) == StringsOfItems(c)
    ensures b == c
    decreases a
  {
    if a.Items? {
      ShapeFixesCount(a.head, b.head);
      ShapeFixesCount(a.head, c.head);
      SplitsAlike(Strings(b.head), StringsOfItems(b.tail), Strings(c.head), StringsOfItems(c.tail));
      ShapeAndStringsDetermine(a.head, b.head, c.head);
      ItemsDetermine(a.tail, b.tail, c.tail);
    }
  }

  lemma {:induction false} FieldsDetermine(a: Fields, b: Fields, c: Fields)
    requires SameFields(a, b) && SameFields(a, c) && StringsOfFields(b) == StringsOfFields(c)
    ensures b == c
    decreases a
  {
    if a.Fields? {
      if a.key in SKIP_KEYS {
        assert StringsOfFields(b) == StringsOfFields(b.rest) && StringsOfFields(c) == StringsOfFields(c.rest);
        FieldsDetermine(a.rest, b.rest, c.rest);
      } else {
        ShapeFixesCount(a.value, b.value);
        ShapeFixesCount(a.value, c.value);
        SplitsAlike(Strings(b.value), StringsOfFields(b.rest), Strings(c.value), StringsOfFields(c.rest));
        ShapeAndStringsDetermine(a.value, b.value, c.value);
        FieldsDetermine(a.rest, b.rest, c.rest);
      }
    }
  }

  lemma {:induction false} SameAsItself(j: Json)
    ensures SameShape(j, j)
    decreases j
  {
    match j {
      case Str(_) =>
      case Scalar(_) =>
      case List(items) => ItemsSameAsThemselves(items);
      case Dict(fields) => FieldsSameAsThemselves(fields);
    }
  }

  lemma {:induction false} ItemsSameAsThemselves(items: Items)
    ensures SameItems(items, items)
    decreases items
  {
    if items.Items? {
      SameAsItself(items.head);
      ItemsSameAsThemselves(items.tail);
    }
  }

  lemma {:induction false} FieldsSameAsThemselves(fields: Fields)
    ensures SameFields(fields, fields)
    decreases fields
  {
    if fields.Fields? {
      SameAsItself(fields.value);
      FieldsSameAsThemselves(fields.rest);
    }
  }

  /** Collecting undoes applying and applying undoes collecting: a tree of the same shape is what applying its
      strings gives, and the strings after those are left over. */
  lemma RoundTrip(j: Json, k: Json, rest: seq<string>)
    requires SameShape(j, k)
    ensures Apply(j, Strings(k) + rest) == Some((k, rest))
  {
    ApplyTakes(j, Strings(k) + rest);
    ShapeFixesCount(j, k);
    var (k', rest') := Apply(j, Strings(k) + rest).value;
    SplitsAlike(Strings(k), rest, Strings(k'), rest');
    ShapeAndStringsDetermine(j, k, k');
  }

  lemma ApplyingCollectedChangesNothing(j: Json, rest: seq<string>)
    ensures Apply(j, Strings(j) + rest) == Some((j, rest))
  {
    SameAsItself(j);
    RoundTrip(j, j, rest);
  }

  // ---- the same, in place ----

  /** The list that strings are collected into, or that an iterator runs over. */
  class StringList {
    var strings: seq<string>

    constructor ()
      ensures strings == []
    {
      strings := [];
    }
  }

  method CollectStrings(j: Json, acc: StringList)
    modifies acc
    ensures acc.strings == old(acc.strings) + Strings(j)
    decreases j
  {
    match j {
      case Str(text) => acc.strings := acc.strings + [text];
      case Scalar(_) =>
      case List(items) => CollectItems(items, acc);
      case Dict(fields) => CollectFields(fields, acc);
    }
  }

  method CollectItems(items: Items, acc: StringList)
    modifies acc
    ensures acc.strings == old(acc.strings) + StringsOfItems(items)
    decreases items
  {
    if items.Items? {
      CollectStrings(items.head, acc);
      CollectItems(items.tail, acc);
    }
  }

  method CollectFields(fields: Fields, acc: StringList)
    modifies acc
    ensures acc.strings == old(acc.strings) + StringsOfFields(fields)
    decreases fields
  {
    if fields.Fields? {
      if fields.key !in SKIP_KEYS {
        CollectStrings(fields.value, acc);
      }
      CollectFields(fields.rest, acc);
    }
  }

  /** `it` holds what the iterator has not yet produced; none is a StopIteration. */
  method ApplyStrings(j: Json, it: StringList) returns (r: Option<Json>)
    modifies it
    ensures match Apply(j, old(it.strings))
      case None => r == None
      case Some(k) => r == Some(k.0) && it.strings == k.1
    decreases j
  {
    match j {
      case Str(_) =>
        if it.strings == [] {
          return None;
        }
        r, it.strings := Some(Str(it.strings[0])), it.strings[1..];
      case Scalar(_) => r := Some(j);
      case List(items) =>
        var k := ApplyToItems(items, it);
        r := if k.Some? then Some(List(k.value)) else None;
      case Dict(fields) =>
        var k := ApplyToFields(fields, it);
        r := if k.Some? then Some(Dict(k.value)) else None;
    }
  }

  method ApplyToItems(items: Items, it: StringList) returns (r: Option<Items>)
    modifies it
    ensures match ApplyItems(items, old(it.strings))
      case None => r == None
      case Some(k) => r == Some(k.0) && it.strings == k.1
    decreases items
  {
    if items.NoItems? {
      return Some(items);
    }
    var head := ApplyStrings(items.head, it);
    if head == None {
      return None;
    }
    var tail := ApplyToItems(items.tail, it);
    r := if tail.Some? then Some(Items(head.value, tail.value)) else None;
  }

  method ApplyToFields(fields: Fields, it: StringList) returns (r: Option<Fields>)
    modifies it
    ensures match ApplyFields(fields, old(it.strings))
      case None => r == None
      case Some(k) => r == Some(k.0) && it.strings == k.1
    decreases fields
  {
    if fields.NoFields? {
      return Some(fields);
    }
    var value := Some(fields.value);
    if fields.key !in SKIP_KEYS {
      value := ApplyStrings(fields.value, it);
      if value == None {
        return None;
      }
    }
    var rest := ApplyToFields(fields.rest, it);
    r := if rest.Some? then Some(Fields(fields.key, value.value, rest.value)) else None;
  }
}
