/**
 * The filter popover: a map from filter-field names to the values selected
 * for each, kept in the object's insertion order, updated one field at a
 * time, cleared field by field, and summarised by a count.
 */
module FilterModal {
  import opened Wrappers

  /** One key of the filter object with its selected values. */
  datatype Entry = Entry(key: string, values: seq<string>)

  /** A filter object, its keys in insertion order. */
  type FilterConfig = seq<Entry>

  /** A filter field of the popover; only its name is used as a key; `caption` is its label. */
  datatype FilterField = FilterField(name: string, caption: string, options: seq<string>)

  /** An object has each key once. */
  predicate UniqueKeys(c: FilterConfig) {
    forall i, j :: 0 <= i < j < |c| ==> c[i].key != c[j].key
  }

  /** `c[key]`, or None when the key is not there. */
  function Lookup(c: FilterConfig, key: string): Option<seq<string>> {
    if c == [] then None else if c[0].key == key then Some(c[0].values) else Lookup(c[1..], key)
  }

  /**
   * `{ ...c, [key]: values }`, and equally `c[key] = values`: an existing key
   * keeps its place and takes the new list, a new key goes last.
   */
  function Assign(c: FilterConfig, key: string, values: seq<string>): FilterConfig {
    if c == [] then [Entry(key, values)]
    else if c[0].key == key then [Entry(key, values)] + c[1..]
    else [c[0]] + Assign(c[1..], key, values)
  }

  /** The object `handleClearFilters` builds: each name in turn set to the empty list. */
  function Cleared(names: seq<string>): FilterConfig {
    if names == [] then [] else Assign(Cleared(names[..|names| - 1]), names[|names| - 1], [])
  }

  function Names(fields: seq<FilterField>): seq<string> {
    seq(|fields|, i requires 0 <= i < |fields| => fields[i].name)
  }

  /** `Object.values(c).some((values) => values.length > 0)`. */
  predicate HasSelected(c: FilterConfig) {
    exists i :: 0 <= i < |c| && |c[i].values| > 0
  }

  /** `Object.values(c).flat().length`. */
  function Count(c: FilterConfig): nat {
    if c == [] then 0 else |c[0].values| + Count(c[1..])
  }

  /** Every key holds the empty list. */
  predicate AllEmpty(c: FilterConfig) {
    forall i :: 0 <= i < |c| ==> c[i].values == []
  }

  /** A key is missing exactly when no entry carries it. */
  lemma {:induction false} LookupMissing(c: FilterConfig, key: string)
    ensures Lookup(c, key).None? <==> forall i :: 0 <= i < |c| ==> c[i].key != key
  {
    if c != [] {
      LookupMissing(c[1..], key);
      assert forall i :: 0 < i < |c| ==> c[i] == c[1..][i - 1];
    }
  }

  /** After an assignment the key reads back as the new list. */
  lemma {:induction false} AssignSelf(c: FilterConfig, key: string, values: seq<string>)
    ensures Lookup(Assign(c, key, values), key) == Some(values)
  {
    if c != [] && c[0].key != key {
      AssignSelf(c[1..], key, values);
      assert Assign(c, key, values)[1..] == Assign(c[1..], key, values);
    }
  }

  /** An assignment leaves every other key as it was, present or missing. */
  lemma {:induction false} AssignOther(c: FilterConfig, key: string, values: seq<string>, other: string)
    requires other != key
    ensures Lookup(Assign(c, key, values), other) == Lookup(c, other)
  {
    if c != [] {
      if c[0].key == key {
        assert Assign(c, key, values)[1..] == c[1..];
      } else {
        AssignOther(c[1..], key, values, other);
        assert Assign(c, key, values)[1..] == Assign(c[1..], key, values);
      }
    }
  }

  /** Assigning a key that is present keeps every key in its place. */
  lemma {:induction false} AssignExisting(c: FilterConfig, key: string, values: seq<string>)
    requires Lookup(c, key).Some?
    ensures var r := Assign(c, key, values);
      |r| == |c| && forall i :: 0 <= i < |c| ==> r[i].key == c[i].key
  {
    if c[0].key != key {
      AssignExisting(c[1..], key, values);
      var r := Assign(c, key, values);
      assert r == [c[0]] + Assign(c[1..], key, values);
      assert forall i :: 0 < i < |c| ==> r[i] == Assign(c[1..], key, values)[i - 1] && c[i] == c[1..][i - 1];
    }
  }

  /** Assigning a key that is missing appends it as the last entry. */
  lemma {:induction false} AssignNew(c: FilterConfig, key: string, values: seq<string>)
    requires Lookup(c, key).None?
    ensures Assign(c, key, values) == c + [Entry(key, values)]
  {
    if c != [] {
      AssignNew(c[1..], key, values);
      assert c == [c[0]] + c[1..];
    }
  }

  /** Assignment keeps the keys unique. */
  lemma AssignUnique(c: FilterConfig, key: string, values: seq<string>)
    requires UniqueKeys(c)
    ensures UniqueKeys(Assign(c, key, values))
  {
    if Lookup(c, key).Some? {
      AssignExisting(c, key, values);
    } else {
      AssignNew(c, key, values);
      LookupMissing(c, key);
    }
  }

  /** Assigning the empty list to any key keeps every list empty. */
  lemma {:induction false} AssignKeepsEmpty(c: FilterConfig, key: string)
    requires AllEmpty(c)
    ensures AllEmpty(Assign(c, key, []))
  {
    if c != [] && c[0].key != key {
      AssignKeepsEmpty(c[1..], key);
      var r := Assign(c, key, []);
      assert forall i :: 0 < i < |r| ==> r[i] == Assign(c[1..], key, [])[i - 1];
    }
  }

  /** The cleared object has each field name once as a key, and no other key. */
  lemma {:induction false} ClearedKeys(names: seq<string>)
    ensures UniqueKeys(Cleared(names))
    ensures forall k :: Lookup(Cleared(names), k) == if k in names then Some([]) else None
  {
    if names != [] {
      var init := names[..|names| - 1];
      var last := names[|names| - 1];
      ClearedKeys(init);
      AssignUnique(Cleared(init), last, []);
      AssignSelf(Cleared(init), last, []);
      assert names == init + [last];
      forall k | k != last
        ensures Lookup(Cleared(names), k) == if k in names then Some([]) else None
      {
        AssignOther(Cleared(init), last, [], k);
      }
    }
  }

  /** Every list of the cleared object is empty. */
  lemma {:induction false} ClearedEmpty(names: seq<string>)
    ensures AllEmpty(Cleared(names))
  {
    if names != [] {
      ClearedEmpty(names[..|names| - 1]);
      AssignKeepsEmpty(Cleared(names[..|names| - 1]), names[|names| - 1]);
    }
  }

  /** Some field has a selection exactly when the selected values are more than none. */
  lemma {:induction false} SelectedIffCount(c: FilterConfig)
    ensures HasSelected(c) <==> Count(c) > 0
  {
    if c != [] {
      SelectedIffCount(c[1..]);
      if HasSelected(c[1..]) {
        var i :| 0 <= i < |c[1..]| && |c[1..][i].values| > 0;
        assert |c[i + 1].values| > 0;
      }
      if HasSelected(c) && |c[0].values| == 0 {
        var i :| 0 <= i < |c| && |c[i].values| > 0;
        assert |c[1..][i - 1].values| > 0;
      }
    }
  }

  /** Assigning a key trades the length of its old list, if any, for the new list's length. */
  lemma {:induction false} AssignCount(c: FilterConfig, key: string, values: seq<string>)
    ensures var before := if Lookup(c, key).Some? then |Lookup(c, key).value| else 0;
      Count(Assign(c, key, values)) == Count(c) - before + |values|
  {
    if c != [] && c[0].key != key {
      AssignCount(c[1..], key, values);
      assert Assign(c, key, values)[1..] == Assign(c[1..], key, values);
    }
  }

  /** A cleared object counts no selected values. */
  lemma ClearedCountsNothing(names: seq<string>)
    ensures Count(Cleared(names)) == 0 && !HasSelected(Cleared(names))
  {
    ClearedEmpty(names);
    SelectedIffCount(Cleared(names));
  }

  /**
   * The popover's local copy of the filter object and the objects it has
   * reported to its parent through `onFilterChange`, oldest first.
   */
  class FilterPopover {
    var localFilters: FilterConfig
    var reported: seq<FilterConfig>

    ghost predicate Valid()
      reads this
    {
      UniqueKeys(localFilters)
    }

    /** Opening with the parent's filter object; nothing is reported yet. */
    constructor (filterConfig: FilterConfig)
      requires UniqueKeys(filterConfig)
      ensures Valid() && localFilters == filterConfig && reported == []
    {
      localFilters := filterConfig;
      reported := [];
    }

    /** The effect that copies a new filter object from the parent. */
    method ReceiveConfig(filterConfig: FilterConfig)
      requires UniqueKeys(filterConfig)
      modifies this`localFilters
      ensures Valid() && localFilters == filterConfig
    {
      localFilters := filterConfig;
    }

    /** `handleFilterChange`: one field takes a new list, and the result is reported. */
    method HandleFilterChange(fieldName: string, selectedValues: seq<string>)
      requires Valid()
      modifies this
      ensures Valid()
      ensures localFilters == Assign(old(localFilters), fieldName, selectedValues)
      ensures reported == old(reported) + [localFilters]
    {
      AssignUnique(localFilters, fieldName, selectedValues);
      localFilters := Assign(localFilters, fieldName, selectedValues);
      reported := reported + [localFilters];
    }

    /** `handleClearFilters`: a fresh object gets an empty list per field, and is reported. */
    method HandleClearFilters(filterFields: seq<FilterField>)
      modifies this
      ensures Valid()
      ensures localFilters == Cleared(Names(filterFields))
      ensures reported == old(reported) + [localFilters]
    {
      var cleared: FilterConfig := [];
      var i := 0;
      while i < |filterFields|
        invariant 0 <= i <= |filterFields|
        invariant cleared == Cleared(Names(filterFields)[..i])
      {
        assert Names(filterFields)[..i + 1][..i] == Names(filterFields)[..i];
        cleared := Assign(cleared, filterFields[i].name, []);
        i := i + 1;
      }
      assert Names(filterFields)[..i] == Names(filterFields);
      ClearedKeys(Names(filterFields));
      localFilters := cleared;
      reported := reported + [localFilters];
    }

    /** `hasSelectedFilters`. */
    predicate HasSelectedFilters()
      reads this
    {
      HasSelected(localFilters)
    }

    /** `numberOfSelectedFilters`. */
    function NumberOfSelectedFilters(): nat
      reads this
    {
      Count(localFilters)
    }
  }
}
