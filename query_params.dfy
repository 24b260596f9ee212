/**
 * The query string of a request as an ordered list of name/value pairs, with
 * the two `URLSearchParams` operations the code uses: `get` and `set`.
 */
module QueryParams {
  import opened Wrappers

  type Entry = (string, string)

  /** `get(name)`: the value of the first pair called `name`, if any. */
  function Lookup(es: seq<Entry>, name: string): Option<string>
    decreases |es|
  {
    if es == [] then None
    else if es[0].0 == name then Some(es[0].1)
    else Lookup(es[1..], name)
  }

  predicate HasName(es: seq<Entry>, name: string) {
    exists i | 0 <= i < |es| :: es[i].0 == name
  }

  /** The number of pairs called `name`. */
  function CountName(es: seq<Entry>, name: string): nat
    decreases |es|
  {
    if es == [] then 0
    else (if es[0].0 == name then 1 else 0) + CountName(es[1..], name)
  }

  /** The pairs not called `name`, in their order. */
  function Without(es: seq<Entry>, name: string): seq<Entry>
    decreases |es|
  {
    if es == [] then []
    else if es[0].0 == name then Without(es[1..], name)
    else [es[0]] + Without(es[1..], name)
  }

  /** No name occurs twice. */
  predicate UniqueNames(es: seq<Entry>) {
    forall i, j | 0 <= i < j < |es| :: es[i].0 != es[j].0
  }

  /**
   * `set(name, value)`: when a pair called `name` exists, the first one
   * gets the new value and the later ones are removed; otherwise the pair
   * is appended.
   */
  function SetEntry(es: seq<Entry>, name: string, value: string): seq<Entry> {
    if HasName(es, name) then SetFirst(es, name, value) else es + [(name, value)]
  }

  function SetFirst(es: seq<Entry>, name: string, value: string): seq<Entry>
    decreases |es|
  {
    if es == [] then []
    else if es[0].0 == name then [(name, value)] + Without(es[1..], name)
    else [es[0]] + SetFirst(es[1..], name, value)
  }

  lemma {:induction false} LookupFound(es: seq<Entry>, name: string)
    ensures Lookup(es, name).Some? <==> HasName(es, name)
    decreases |es|
  {
    if es != [] {
      LookupFound(es[1..], name);
      if es[0].0 != name && HasName(es, name) {
        var i :| 0 <= i < |es| && es[i].0 == name;
        assert es[1..][i - 1].0 == name;
      }
    }
  }

  lemma {:induction false} LookupAppend(es: seq<Entry>, e: Entry, name: string)
    ensures Lookup(es + [e], name) == if HasName(es, name) then Lookup(es, name) else if e.0 == name then Some(e.1) else None
    decreases |es|
  {
    LookupFound(es, name);
    if es == [] {
      assert es + [e] == [e];
    } else {
      assert (es + [e])[1..] == es[1..] + [e];
      LookupAppend(es[1..], e, name);
      LookupFound(es[1..], name);
    }
  }

  lemma {:induction false} WithoutLookup(es: seq<Entry>, name: string, other: string)
    requires other != name
    ensures Lookup(Without(es, name), other) == Lookup(es, other)
    ensures CountName(Without(es, name), name) == 0
    decreases |es|
  {
    if es != [] {
      WithoutLookup(es[1..], name, other);
      var rest := Without(es[1..], name);
      assert ([es[0]] + rest)[1..] == rest;
    }
  }

  lemma {:induction false} WithoutIdempotent(es: seq<Entry>, name: string)
    ensures Without(Without(es, name), name) == Without(es, name)
    decreases |es|
  {
    if es != [] {
      WithoutIdempotent(es[1..], name);
      var rest := Without(es[1..], name);
      assert ([es[0]] + rest)[1..] == rest;
    }
  }

  lemma {:induction false} SetFirstFacts(es: seq<Entry>, name: string, value: string, other: string)
    requires HasName(es, name)
    requires other != name
    ensures Lookup(SetFirst(es, name, value), name) == Some(value)
    ensures Lookup(SetFirst(es, name, value), other) == Lookup(es, other)
    ensures CountName(SetFirst(es, name, value), name) == 1
    ensures Without(SetFirst(es, name, value), name) == Without(es, name)
    decreases |es|
  {
    if es[0].0 == name {
      WithoutLookup(es[1..], name, other);
      WithoutIdempotent(es[1..], name);
    } else {
      var i :| 0 <= i < |es| && es[i].0 == name;
      assert es[1..][i - 1].0 == name;
      SetFirstFacts(es[1..], name, value, other);
    }
  }

  lemma {:induction false} CountAppend(es: seq<Entry>, e: Entry, name: string)
    ensures CountName(es + [e], name) == CountName(es, name) + (if e.0 == name then 1 else 0)
    ensures Without(es + [e], name) == Without(es, name) + (if e.0 == name then [] else [e])
    decreases |es|
  {
    if es == [] {
      assert es + [e] == [e];
    } else {
      assert (es + [e])[1..] == es[1..] + [e];
      CountAppend(es[1..], e, name);
    }
  }

  lemma {:induction false} CountAbsent(es: seq<Entry>, name: string)
    requires !HasName(es, name)
    ensures CountName(es, name) == 0
    ensures Without(es, name) == es
    decreases |es|
  {
    if es != [] {
      CountAbsent(es[1..], name);
    }
  }

  /**
   * After `set(name, value)`, `get(name)` gives `value`, exactly one pair is
   * called `name`, `get` answers as before for every other name, and the
   * other pairs keep their order.
   */
  lemma SetEntryFacts(es: seq<Entry>, name: string, value: string, other: string)
    requires other != name
    ensures Lookup(SetEntry(es, name, value), name) == Some(value)
    ensures Lookup(SetEntry(es, name, value), other) == Lookup(es, other)
    ensures CountName(SetEntry(es, name, value), name) == 1
    ensures Without(SetEntry(es, name, value), name) == Without(es, name)
  {
    if HasName(es, name) {
      SetFirstFacts(es, name, value, other);
    } else {
      LookupAppend(es, (name, value), name);
      LookupAppend(es, (name, value), other);
      LookupFound(es, other);
      CountAppend(es, (name, value), name);
      CountAbsent(es, name);
    }
  }

  /** Setting a name that is not yet present appends it at the end. */
  lemma SetEntryAppends(es: seq<Entry>, name: string, value: string)
    requires !HasName(es, name)
    ensures SetEntry(es, name, value) == es + [(name, value)]
  {
  }

  /** A mutable `URLSearchParams` object. */
  class UrlSearchParams {
    var entries: seq<Entry>

    /** `new URLSearchParams(record)`: the record's pairs, in order. */
    constructor (init: seq<Entry>)
      ensures entries == init
    {
      entries := init;
    }

    /** `params.set(name, value)`. */
    method Set(name: string, value: string)
      modifies this
      ensures entries == SetEntry(old(entries), name, value)
    {
      entries := SetEntry(entries, name, value);
    }
  }
}
