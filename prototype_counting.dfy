/**
  The title count as the page actually computes it: `count` is a plain
  object literal `{}`, so reading `count[title]` for a title that is not an
  own property yet falls through to the properties every object inherits
  from `Object.prototype`. The duplicate summary therefore never lists a
  title such as "toString" or "constructor", and it never lists
  "__proto__", whose assignment the accessor ignores. The rest of the model
  counts with a true dictionary (`RequestList.TitleCounts`); this module
  shows where the two differ.
*/
module PrototypeCounting {
  import opened RequestList

  /** Names a plain object inherits from `Object.prototype`. */
  const InheritedNames: set<string> := {
    "constructor", "__defineGetter__", "__defineSetter__", "hasOwnProperty",
    "__lookupGetter__", "__lookupSetter__", "isPrototypeOf",
    "propertyIsEnumerable", "toString", "valueOf", "__proto__", "toLocaleString"
  }

  /** The `__proto__` accessor: assigning it a primitive value is ignored. */
  const ProtoAccessor: string := "__proto__"

  /** An own property of `count`: a number, or the string that `+ 1`
      produced from an inherited function or object (its text starts with
      "function" or "[object", so it never converts to a number). */
  datatype Slot = Num(n: int) | Concatenated

  /** What `count[title]` yields. */
  datatype Lookup = Own(slot: Slot) | Inherited | Missing

  function Get(obj: map<string, Slot>, key: string): (v: Lookup)
    ensures v == Missing <==> key !in obj && key !in InheritedNames
  {
    if key in obj then Own(obj[key])
    else if key in InheritedNames then Inherited
    else Missing
  }

  /** `(count[title] || 0) + 1`: `undefined` becomes 0; a positive number
      goes up by one; an inherited function or object, and a non-empty
      string, are truthy and `+ 1` concatenates. */
  function Bumped(v: Lookup): (r: Slot)
    ensures r.Num? <==> v == Missing || (v.Own? && v.slot.Num?)
    ensures v == Missing ==> r == Num(1)
    ensures r.Num? && v.Own? ==> r.n == v.slot.n + 1
  {
    match v
    case Missing => Num(1)
    case Own(Num(n)) => Num(n + 1)
    case Own(Concatenated) => Concatenated
    case Inherited => Concatenated
  }

  /** `count[title] = value`. */
  function Put(obj: map<string, Slot>, key: string, value: Slot): (r: map<string, Slot>)
    ensures key != ProtoAccessor ==> key in r && r[key] == value
    ensures key == ProtoAccessor ==> r == obj
    ensures forall k :: k != key ==> (k in r <==> k in obj)
    ensures forall k :: k != key && k in r ==> r[k] == obj[k]
  {
    if key == ProtoAccessor then obj else obj[key := value]
  }

  /** The `count` object after the first `forEach`, item by item. */
  function CountAsWritten(titles: seq<string>): (count: map<string, Slot>)
    ensures forall t :: t in count ==> t in titles && t != ProtoAccessor
  {
    if titles == [] then map[]
    else
      var prev := CountAsWritten(titles[..|titles| - 1]);
      var t := titles[|titles| - 1];
      Put(prev, t, Bumped(Get(prev, t)))
  }

  /** `Object.keys(count)` filtered by `count[title] > 1`; a concatenated
      string converts to NaN, which is not greater than 1. */
  function SummaryAsWritten(titles: seq<string>): (summary: map<string, nat>)
    ensures forall t :: t in summary ==> t !in InheritedNames && summary[t] == multiset(titles)[t] > 1
  {
    CountAsWrittenShape(titles);
    var count := CountAsWritten(titles);
    map t | t in count && count[t].Num? && count[t].n > 1 :: count[t].n
  }

  /** What the object ends up holding: every title of the page except
      "__proto__"; inherited names hold a concatenated string, every other
      title its number of occurrences. */
  lemma {:induction false} CountAsWrittenShape(titles: seq<string>)
    ensures forall t :: t in CountAsWritten(titles) <==> t in titles && t != ProtoAccessor
    ensures forall t :: t in CountAsWritten(titles) && t in InheritedNames ==>
              CountAsWritten(titles)[t] == Concatenated
    ensures forall t :: t in CountAsWritten(titles) && t !in InheritedNames ==>
              CountAsWritten(titles)[t] == Num(multiset(titles)[t])
  {
    if titles != [] {
      var prefix := titles[..|titles| - 1];
      var last := titles[|titles| - 1];
      assert titles == prefix + [last];
      CountAsWrittenShape(prefix);
      var prev := CountAsWritten(prefix);
      assert CountAsWritten(titles) == Put(prev, last, Bumped(Get(prev, last)));
    }
  }

  /** The summary as written is the true summary without the inherited names. */
  lemma SummaryAsWrittenDropsInheritedNames(titles: seq<string>)
    ensures forall t :: t in SummaryAsWritten(titles) <==> t in Duplicates(titles) && t !in InheritedNames
    ensures forall t :: t in SummaryAsWritten(titles) ==> SummaryAsWritten(titles)[t] == Duplicates(titles)[t]
  {
    CountAsWrittenShape(titles);
  }

  /** Two requests titled "toString": the summary as written is empty,
      while the page does hold a duplicated title. */
  lemma ToStringIsNeverReported(page: seq<string>)
    requires page == ["toString", "toString"]
    ensures Duplicates(page) == map["toString" := 2]
    ensures SummaryAsWritten(page) == map[]
  {
    assert multiset(page)["toString"] == 2;
    var d := Duplicates(page);
    forall t | t in d ensures t == "toString" {
      assert t in multiset(page);
    }
    assert d.Keys == {"toString"};
    SummaryAsWrittenDropsInheritedNames(page);
    assert "toString" in InheritedNames;
    assert SummaryAsWritten(page).Keys == {};
  }
}
