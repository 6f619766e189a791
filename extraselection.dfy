/**
 * The parceqt ExtraSelectionManager: per text format, a list of
 * selections drawn with that format and a priority. Whenever the stored
 * selections change, the text edit gets all of them, the lists in order of
 * priority (lower first, so higher priority is drawn over lower), lists of
 * equal priority in the order their formats were first highlighted.
 */
module ExtraSelection {
  import opened Wrappers
  import opened QtFormat
  import opened QtText

  /** A QTextCharFormat object, known by its identity id(). */
  datatype TextFormat = TextFormat(id: nat, format: CharFormat)

  /** A QTextEdit.ExtraSelection: a cursor and the format to draw its selection with. */
  datatype Selection = Selection(cursor: TextCursor, format: TextFormat)

  /** What is stored per format: the priority and the selections. */
  datatype Entry = Entry(priority: int, selections: seq<Selection>)

  /** The entry inserted into a list sorted by priority after every entry of the same or lower priority. */
  function Insert(s: seq<Entry>, e: Entry): (r: seq<Entry>)
    ensures |r| == |s| + 1
  {
    if s == [] then [e]
    else if s[0].priority > e.priority then [e] + s
    else [s[0]] + Insert(s[1..], e)
  }

  /** sorted(entries, key=priority): a stable sort by priority. */
  function StableSort(es: seq<Entry>): (r: seq<Entry>)
    ensures |r| == |es|
  {
    if es == [] then [] else Insert(StableSort(es[..|es| - 1]), es[|es| - 1])
  }

  /** sum(lists, []): the selection lists one after another. */
  function Concat(es: seq<Entry>): seq<Selection>
  {
    if es == [] then [] else es[0].selections + Concat(es[1..])
  }

  /** The number of selections stored in all entries. */
  function TotalSelections(es: seq<Entry>): nat
  {
    if es == [] then 0 else |es[0].selections| + TotalSelections(es[1..])
  }

  /** Non-decreasing priorities. */
  predicate Sorted(s: seq<Entry>)
  {
    forall i, j :: 0 <= i < j < |s| ==> s[i].priority <= s[j].priority
  }

  /** The entries of priority p, in their order. */
  function WithPriority(s: seq<Entry>, p: int): seq<Entry>
  {
    if s == [] then [] else (if s[0].priority == p then [s[0]] else []) + WithPriority(s[1..], p)
  }

  lemma {:induction false} WithPrioritySplit(s: seq<Entry>, t: seq<Entry>, p: int)
    ensures WithPriority(s + t, p) == WithPriority(s, p) + WithPriority(t, p)
  {
    if s == [] {
      assert s + t == t;
    } else {
      assert (s + t)[0] == s[0] && (s + t)[1..] == s[1..] + t;
      WithPrioritySplit(s[1..], t, p);
    }
  }

  /** Inserting adds exactly the entry. */
  lemma {:induction false} InsertMultiset(s: seq<Entry>, e: Entry)
    ensures multiset(Insert(s, e)) == multiset(s) + multiset{e}
  {
    if s != [] && s[0].priority <= e.priority {
      InsertMultiset(s[1..], e);
      assert s == [s[0]] + s[1..];
      assert Insert(s, e) == [s[0]] + Insert(s[1..], e);
    } else if s != [] {
      assert Insert(s, e) == [e] + s;
    }
  }

  /** Inserting an entry of priority at least lo into entries of priority at least lo gives such entries only. */
  lemma {:induction false} InsertAbove(s: seq<Entry>, e: Entry, lo: int)
    requires forall i :: 0 <= i < |s| ==> lo <= s[i].priority
    requires lo <= e.priority
    ensures forall i :: 0 <= i < |Insert(s, e)| ==> lo <= Insert(s, e)[i].priority
  {
    if s != [] && s[0].priority <= e.priority {
      var rest := Insert(s[1..], e);
      assert Insert(s, e) == [s[0]] + rest;
      assert forall i :: 0 <= i < |s[1..]| ==> lo <= s[1..][i].priority by {
        forall i | 0 <= i < |s[1..]| ensures lo <= s[1..][i].priority {
          assert s[1..][i] == s[i + 1];
        }
      }
      InsertAbove(s[1..], e, lo);
    }
  }

  /** Inserting into a sorted list keeps it sorted and adds exactly the entry. */
  lemma InsertSorted(s: seq<Entry>, e: Entry)
    requires Sorted(s)
    ensures Sorted(Insert(s, e))
    ensures multiset(Insert(s, e)) == multiset(s) + multiset{e}
  {
    InsertKeepsSorted(s, e);
    InsertMultiset(s, e);
  }

  /** The ordering half of InsertSorted. */
  lemma {:induction false} InsertKeepsSorted(s: seq<Entry>, e: Entry)
    requires Sorted(s)
    ensures Sorted(Insert(s, e))
  {
    if s != [] && s[0].priority <= e.priority {
      var rest := Insert(s[1..], e);
      var r := Insert(s, e);
      assert r == [s[0]] + rest;
      assert Sorted(s[1..]) by {
        forall i, j | 0 <= i < j < |s[1..]| ensures s[1..][i].priority <= s[1..][j].priority {
          assert s[1..][i] == s[i + 1] && s[1..][j] == s[j + 1];
        }
      }
      InsertKeepsSorted(s[1..], e);
      assert forall i :: 0 <= i < |s[1..]| ==> s[0].priority <= s[1..][i].priority by {
        forall i | 0 <= i < |s[1..]| ensures s[0].priority <= s[1..][i].priority {
          assert s[1..][i] == s[i + 1];
        }
      }
      InsertAbove(s[1..], e, s[0].priority);
      forall i, j | 0 <= i < j < |r| ensures r[i].priority <= r[j].priority {
        assert r[j] == rest[j - 1];
        if i > 0 {
          assert r[i] == rest[i - 1];
        }
      }
    } else if s != [] {
      assert Insert(s, e) == [e] + s;
    }
  }

  /** Inserting into a sorted list puts the entry after all entries of its own priority. */
  lemma {:induction false} InsertKeepsTies(s: seq<Entry>, e: Entry, p: int)
    requires Sorted(s)
    ensures WithPriority(Insert(s, e), p) == WithPriority(s, p) + if e.priority == p then [e] else []
  {
    if s == [] {
    } else if s[0].priority > e.priority {
      assert Insert(s, e) == [e] + s;
      assert Insert(s, e)[1..] == s;
      if e.priority == p {
        NoneOfPriority(s, p);
      }
    } else {
      InsertKeepsTies(s[1..], e, p);
      assert Insert(s, e)[1..] == Insert(s[1..], e);
    }
  }

  /** A sorted list whose first priority is above p holds no entry of priority p. */
  lemma {:induction false} NoneOfPriority(s: seq<Entry>, p: int)
    requires Sorted(s) && s != [] && s[0].priority > p
    ensures WithPriority(s, p) == []
  {
    if |s| > 1 {
      NoneOfPriority(s[1..], p);
    }
  }

  /** The stable sort orders by priority and keeps the same entries. */
  lemma {:induction false} StableSortSorted(es: seq<Entry>)
    ensures Sorted(StableSort(es))
    ensures multiset(StableSort(es)) == multiset(es)
  {
    if es != [] {
      var init, e := es[..|es| - 1], es[|es| - 1];
      var sorted := StableSort(init);
      assert StableSort(es) == Insert(sorted, e);
      assert es == init + [e];
      StableSortSorted(init);
      InsertSorted(sorted, e);
      assert multiset(es) == multiset(init) + multiset{e};
    }
  }

  /** The stable sort keeps the entries of each priority in their original order. */
  lemma {:induction false} StableSortTies(es: seq<Entry>, p: int)
    ensures WithPriority(StableSort(es), p) == WithPriority(es, p)
  {
    if es != [] {
      var init, e := es[..|es| - 1], es[|es| - 1];
      var sorted := StableSort(init);
      assert StableSort(es) == Insert(sorted, e);
      assert es == init + [e];
      StableSortTies(init, p);
      StableSortSorted(init);
      InsertKeepsTies(sorted, e, p);
      WithPrioritySplit(init, [e], p);
      assert WithPriority([e], p) == if e.priority == p then [e] else [];
    }
  }

  /**
   * The stable sort: priorities non-decreasing, the same entries, and the
   * entries of each priority in their original order.
   */
  lemma StableSortSpec(es: seq<Entry>)
    ensures Sorted(StableSort(es))
    ensures multiset(StableSort(es)) == multiset(es)
    ensures forall p :: WithPriority(StableSort(es), p) == WithPriority(es, p)
  {
    StableSortSorted(es);
    forall p ensures WithPriority(StableSort(es), p) == WithPriority(es, p) {
      StableSortTies(es, p);
    }
  }

  lemma {:induction false} ConcatInsertLength(s: seq<Entry>, e: Entry)
    ensures |Concat(Insert(s, e))| == |Concat(s)| + |e.selections|
  {
    if s != [] && s[0].priority <= e.priority {
      ConcatInsertLength(s[1..], e);
      assert Insert(s, e)[1..] == Insert(s[1..], e);
    } else if s != [] {
      assert Insert(s, e)[1..] == s;
    }
  }

  lemma {:induction false} TotalSplit(es: seq<Entry>)
    requires es != []
    ensures TotalSelections(es) == TotalSelections(es[..|es| - 1]) + |es[|es| - 1].selections|
  {
    if |es| > 1 {
      TotalSplit(es[1..]);
      assert es[1..][..|es| - 2] == es[..|es| - 1][1..];
    }
  }

  /** The list the text edit gets holds exactly as many selections as are stored. */
  lemma {:induction false} AppliedLength(es: seq<Entry>)
    ensures |Concat(StableSort(es))| == TotalSelections(es)
  {
    if es != [] {
      AppliedLength(es[..|es| - 1]);
      ConcatInsertLength(StableSort(es[..|es| - 1]), es[|es| - 1]);
      TotalSplit(es);
    }
  }

  class ExtraSelectionManager {
    /** The keys of _selections in insertion order, and the entries under them. */
    var keys: seq<nat>
    var entries: map<nat, Entry>
    /** _formats: the formats under their identity. */
    var formats: map<nat, TextFormat>
    /** Whether the text edit is still there, and the extra selections it was last given. */
    var attached: bool
    var applied: seq<Selection>

    /** The key order lists each key of the entries once. */
    predicate Valid()
      reads this`keys, this`entries
    {
      && Distinct(keys)
      && entries.Keys == set k | k in keys
    }

    /** _selections.values(), in insertion order. */
    function Values(): (vs: seq<Entry>)
      reads this`keys, this`entries
      requires Valid()
      ensures |vs| == |keys|
      ensures forall i :: 0 <= i < |keys| ==> vs[i] == entries[keys[i]]
    {
      InOrder(keys, entries)
    }

    constructor ()
      ensures Valid() && keys == [] && entries == map[] && formats == map[]
      ensures attached && applied == []
    {
      keys, entries, formats := [], map[], map[];
      attached, applied := true, [];
    }

    /** _update: the text edit, when it is still there, gets all selections ordered by priority. */
    method Update()
      requires Valid()
      modifies this`applied
      ensures applied == if attached then Concat(StableSort(Values())) else old(applied)
    {
      if attached {
        applied := Concat(StableSort(Values()));
      }
    }

    /**
     * Stores one selection per cursor, drawn with fmt, under fmt's identity
     * with the priority, replacing what was stored for fmt before, and
     * updates the text edit.
     */
    method Highlight(fmt: TextFormat, cursors: seq<TextCursor>, priority: int)
      requires Valid()
      modifies this`keys, this`entries, this`formats, this`applied
      ensures Valid()
      ensures formats == old(formats)[fmt.id := fmt]
      ensures keys == if fmt.id in old(keys) then old(keys) else old(keys) + [fmt.id]
      ensures entries == old(entries)[fmt.id := Entry(priority, entries[fmt.id].selections)]
      ensures |entries[fmt.id].selections| == |cursors|
      ensures forall i :: 0 <= i < |cursors| ==> entries[fmt.id].selections[i] == Selection(cursors[i], fmt)
      ensures applied == if attached then Concat(StableSort(Values())) else old(applied)
    {
      var key := fmt.id;
      formats := formats[key := fmt];
      var selections := [];
      var i := 0;
      while i < |cursors|
        invariant i <= |cursors| && |selections| == i
        invariant forall j :: 0 <= j < i ==> selections[j] == Selection(cursors[j], fmt)
      {
        selections := selections + [Selection(cursors[i], fmt)];
        i := i + 1;
      }
      if key !in keys {
        keys := keys + [key];
      }
      entries := entries[key := Entry(priority, selections)];
      Update();
    }

    /**
     * Removes the highlighting of fmt: its format and selections go and the
     * text edit is updated, unless nothing was stored for it. Without a
     * format everything goes.
     */
    method Clear(fmt: Option<TextFormat>)
      requires Valid()
      modifies this`keys, this`entries, this`formats, this`applied
      ensures Valid()
      ensures fmt.Some? ==>
        && formats == old(formats) - {fmt.value.id}
        && entries == old(entries) - {fmt.value.id}
        && keys == Remove(old(keys), fmt.value.id)
      ensures fmt.Some? && fmt.value.id !in old(entries) ==> keys == old(keys) && applied == old(applied)
      ensures fmt.None? ==> keys == [] && entries == map[] && formats == map[]
      ensures fmt.None? || fmt.value.id in old(entries) ==>
        applied == if attached then Concat(StableSort(Values())) else old(applied)
    {
      if fmt.Some? {
        var key := fmt.value.id;
        formats := formats - {key};
        if key !in entries {
          RemoveAbsent(keys, key);
          return;
        }
        entries := entries - {key};
        RemoveDistinct(keys, key);
        keys := Remove(keys, key);
      } else {
        formats := map[];
        entries := map[];
        keys := [];
      }
      Update();
    }

    /** Removes all highlighting, then detaches from the text edit. */
    method Delete()
      requires Valid()
      modifies this`keys, this`entries, this`formats, this`applied, this`attached
      ensures keys == [] && entries == map[] && formats == map[]
      ensures applied == if old(attached) then [] else old(applied)
      ensures !attached
    {
      Clear(None);
      attached := false;
    }
  }

  /** No key is listed twice. */
  predicate Distinct(keys: seq<nat>)
  {
    forall i, j :: 0 <= i < j < |keys| ==> keys[i] != keys[j]
  }

  /** The values of a dictionary in the order of its keys. */
  function InOrder(keys: seq<nat>, entries: map<nat, Entry>): (vs: seq<Entry>)
    requires forall k :: k in keys ==> k in entries
    ensures |vs| == |keys|
    ensures forall i :: 0 <= i < |keys| ==> vs[i] == entries[keys[i]]
  {
    seq(|keys|, i requires 0 <= i < |keys| => entries[keys[i]])
  }

  /** The key order with one key taken out. */
  function Remove(keys: seq<nat>, k: nat): (r: seq<nat>)
    ensures forall x :: x in r <==> x in keys && x != k
  {
    if keys == [] then []
    else if keys[0] == k then Remove(keys[1..], k)
    else [keys[0]] + Remove(keys[1..], k)
  }

  /** Taking out a key that is not there leaves the order as it was. */
  lemma {:induction false} RemoveAbsent(keys: seq<nat>, k: nat)
    requires k !in keys
    ensures Remove(keys, k) == keys
  {
    if keys != [] {
      RemoveAbsent(keys[1..], k);
      assert [keys[0]] + keys[1..] == keys;
    }
  }

  /**
   * Taking out the key at index m of a list without repetitions leaves the
   * keys before it and the keys after it, in their order.
   */
  lemma {:induction false} RemoveAt(keys: seq<nat>, m: nat)
    requires Distinct(keys) && m < |keys|
    ensures Remove(keys, keys[m]) == keys[..m] + keys[m + 1..]
  {
    var k := keys[m];
    if m == 0 {
      assert k !in keys[1..] by {
        forall j | 0 <= j < |keys| - 1 ensures keys[1..][j] != k {
          assert keys[1..][j] == keys[j + 1];
        }
      }
      RemoveAbsent(keys[1..], k);
    } else {
      assert Distinct(keys[1..]) by {
        forall i, j | 0 <= i < j < |keys| - 1 ensures keys[1..][i] != keys[1..][j] {
          assert keys[1..][i] == keys[i + 1] && keys[1..][j] == keys[j + 1];
        }
      }
      assert keys[1..][m - 1] == k;
      RemoveAt(keys[1..], m - 1);
      assert keys[0] != k;
      assert [keys[0]] + (keys[1..][..m - 1] + keys[1..][m..]) == keys[..m] + keys[m + 1..];
    }
  }

  /** Taking a key out of a list without repetitions leaves one without repetitions. */
  lemma {:induction false} RemoveDistinct(keys: seq<nat>, k: nat)
    requires Distinct(keys)
    ensures Distinct(Remove(keys, k))
  {
    if keys != [] {
      RemoveDistinct(keys[1..], k);
      assert keys[0] !in keys[1..] by {
        forall m | 0 <= m < |keys| - 1 ensures keys[1..][m] != keys[0] {
          assert keys[1..][m] == keys[m + 1];
        }
      }
      var rest := Remove(keys[1..], k);
      if keys[0] == k {
        assert Remove(keys, k) == rest;
      } else {
        var r := [keys[0]] + rest;
        assert r == Remove(keys, k);
        forall i, j | 0 <= i < j < |r| ensures r[i] != r[j] {
          if i == 0 {
            assert r[j] == rest[j - 1] && rest[j - 1] in rest;
            assert r[j] in keys[1..];
          } else {
            assert r[i] == rest[i - 1] && r[j] == rest[j - 1];
          }
        }
      }
    }
  }
}
