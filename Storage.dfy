/**
 * MemStorage of src/utils/storage.ts: the in-memory table of reminders, in
 * the insertion order of a JavaScript Map, with its sequential id counter,
 * and the loading of a persisted list into it.
 */
module Storage {
  import opened Reminders
  import opened Jobs

  /** No key occurs twice. */
  predicate Distinct(s: seq<int>)
  {
    forall i, j :: 0 <= i < j < |s| ==> s[i] != s[j]
  }

  /** A list without repeats has as many elements as its set. */
  lemma {:induction false} DistinctCardinality(s: seq<int>)
    requires Distinct(s)
    ensures |set k | k in s| == |s|
  {
    if s != [] {
      DistinctCardinality(s[1..]);
      assert (set k | k in s) == (set k | k in s[1..]) + {s[0]};
      assert s[0] !in s[1..];
    }
  }

  /** The key order of a Map after `set(id, _)`: a new key goes last, an existing key keeps its place. */
  function InsertKey(keys: seq<int>, id: int): (r: seq<int>)
    ensures forall k :: k in r <==> k in keys || k == id
    ensures |keys| <= |r| && r[..|keys|] == keys
    ensures id in keys ==> |r| == |keys|
    ensures Distinct(keys) ==> Distinct(r)
  {
    if id in keys then keys else keys + [id]
  }

  /** The key order of a Map after `delete(id)`: the others keep their relative order. */
  function RemoveKey(keys: seq<int>, id: int): (r: seq<int>)
    ensures forall k :: k in r <==> k in keys && k != id
    ensures |r| <= |keys|
    ensures id !in keys ==> r == keys
    ensures Distinct(keys) ==> Distinct(r)
  {
    if keys == [] then []
    else if keys[0] == id then RemoveKey(keys[1..], id)
    else
      var rest := RemoveKey(keys[1..], id);
      assert Distinct(keys) ==> keys[0] !in keys[1..];
      [keys[0]] + rest
  }

  /** Deleting the key at position p from a list without repeats splices it out: the keys before and after keep their order. */
  lemma {:induction false} RemoveKeyAt(keys: seq<int>, id: int, p: nat)
    requires Distinct(keys)
    requires p < |keys| && keys[p] == id
    ensures RemoveKey(keys, id) == keys[..p] + keys[p + 1..]
  {
    if p == 0 {
      assert id !in keys[1..];
    } else {
      assert keys[0] != id;
      RemoveKeyAt(keys[1..], id, p - 1);
      assert keys[..p] == [keys[0]] + keys[1..][..p - 1];
      assert keys[p + 1..] == keys[1..][p..];
    }
  }

  /** `Math.max` of the ids of a non-empty list. */
  function MaxId(items: seq<Reminder>): (m: int)
    requires |items| > 0
    ensures exists i :: 0 <= i < |items| && items[i].id == m
    ensures forall i :: 0 <= i < |items| ==> items[i].id <= m
  {
    if |items| == 1 then items[0].id
    else
      var rest := MaxId(items[1..]);
      if items[0].id >= rest then items[0].id else rest
  }

  /** The counter loadReminders sets: one past the largest loaded id, or 1 for an empty list. */
  function NextIdAfterLoad(items: seq<Reminder>): (next: int)
    ensures |items| == 0 ==> next == 1
    ensures forall i :: 0 <= i < |items| ==> items[i].id < next
    ensures |items| > 0 ==> exists i :: 0 <= i < |items| && items[i].id == next - 1
  {
    if |items| > 0 then MaxId(items) + 1 else 1
  }

  /** The table after `set(r.id, r)` for every loaded reminder in turn. */
  function MergeEntries(m: map<int, Reminder>, items: seq<Reminder>): map<int, Reminder>
  {
    if items == [] then m
    else
      var n := |items| - 1;
      MergeEntries(m, items[..n])[items[n].id := items[n]]
  }

  /** The key order after the same `set` calls. */
  function MergeOrder(keys: seq<int>, items: seq<Reminder>): seq<int>
  {
    if items == [] then keys
    else
      var n := |items| - 1;
      InsertKey(MergeOrder(keys, items[..n]), items[n].id)
  }

  /** Loading adds to the table and clears nothing: its keys are the old keys and the loaded ids. */
  lemma {:induction false} MergeEntriesKeys(m: map<int, Reminder>, items: seq<Reminder>)
    ensures forall k :: k in MergeEntries(m, items) <==> k in m || exists i :: 0 <= i < |items| && items[i].id == k
  {
    if items != [] {
      var n := |items| - 1;
      MergeEntriesKeys(m, items[..n]);
      assert forall i :: 0 <= i < n ==> items[..n][i] == items[i];
    }
  }

  /** An old entry that no loaded reminder shares an id with is kept as it was. */
  lemma {:induction false} MergeEntriesKeepsOthers(m: map<int, Reminder>, items: seq<Reminder>, k: int)
    requires k in m
    requires forall i :: 0 <= i < |items| ==> items[i].id != k
    ensures k in MergeEntries(m, items) && MergeEntries(m, items)[k] == m[k]
  {
    if items != [] {
      var n := |items| - 1;
      MergeEntriesKeepsOthers(m, items[..n], k);
    }
  }

  /** Each loaded id holds the last loaded reminder with that id. */
  lemma {:induction false} MergeEntriesLastWins(m: map<int, Reminder>, items: seq<Reminder>, i: nat)
    requires i < |items|
    requires forall j :: i < j < |items| ==> items[j].id != items[i].id
    ensures items[i].id in MergeEntries(m, items) && MergeEntries(m, items)[items[i].id] == items[i]
  {
    var n := |items| - 1;
    if i < n {
      MergeEntriesLastWins(m, items[..n], i);
    }
  }

  /** The merged order lists the merged keys, once each, old keys first in their old places. */
  lemma {:induction false} MergeOrderContents(keys: seq<int>, items: seq<Reminder>)
    ensures forall k :: k in MergeOrder(keys, items) <==> k in keys || exists i :: 0 <= i < |items| && items[i].id == k
    ensures |keys| <= |MergeOrder(keys, items)| && MergeOrder(keys, items)[..|keys|] == keys
    ensures Distinct(keys) ==> Distinct(MergeOrder(keys, items))
  {
    if items != [] {
      var n := |items| - 1;
      MergeOrderContents(keys, items[..n]);
      assert forall i :: 0 <= i < n ==> items[..n][i] == items[i];
      var before := MergeOrder(keys, items[..n]);
      assert before[..|keys|] == keys;
      assert InsertKey(before, items[n].id)[..|before|] == before;
      assert InsertKey(before, items[n].id)[..|keys|] == before[..|keys|];
    }
  }

  /** A listing of a consistent table: the entry of each key, in key order. */
  ghost predicate ListsTable(rs: seq<Reminder>, keys: seq<int>, m: map<int, Reminder>)
  {
    && |rs| == |keys|
    && forall i :: 0 <= i < |rs| ==> keys[i] in m && rs[i] == m[keys[i]] && rs[i].id == keys[i]
  }

  /** Loading the first n entries of a listing into an empty table rebuilds the first n keys and their entries. */
  lemma {:induction false} ReloadPrefix(rs: seq<Reminder>, keys: seq<int>, m: map<int, Reminder>, n: nat)
    requires Distinct(keys) && ListsTable(rs, keys, m)
    requires n <= |rs|
    ensures MergeOrder([], rs[..n]) == keys[..n]
    ensures MergeEntries(map[], rs[..n]) == map k | k in keys[..n] && k in m :: m[k]
  {
    if n > 0 {
      ReloadPrefix(rs, keys, m, n - 1);
      assert rs[..n][..n - 1] == rs[..n - 1];
      assert rs[..n][n - 1] == rs[n - 1];
      assert keys[n - 1] !in keys[..n - 1];
      assert keys[..n] == keys[..n - 1] + [keys[n - 1]];
    }
  }

  /**
   * Reload round trip: loading the listing of a consistent table into an
   * empty table rebuilds the same entries in the same order.
   */
  lemma ReloadRoundTrip(rs: seq<Reminder>, keys: seq<int>, m: map<int, Reminder>)
    requires Distinct(keys) && ListsTable(rs, keys, m)
    requires forall k :: k in m ==> k in keys
    ensures MergeEntries(map[], rs) == m
    ensures MergeOrder([], rs) == keys
  {
    ReloadPrefix(rs, keys, m, |rs|);
    assert rs[..|rs|] == rs;
    assert keys[..|keys|] == keys;
  }

  /** What the 'reminders' slot of persistent storage yields: no value, text that does not parse as a reminder list, or a parsed list. */
  datatype Stored = Missing | Malformed | Parsed(items: seq<Reminder>)

  class MemStorage {
    /** The keys of the reminders Map, in insertion order. */
    var keys: seq<int>
    /** The reminders Map. */
    var reminders: map<int, Reminder>
    /** The next id createReminder hands out. */
    var currentId: int
    /** The job registry every scheduling call goes to. */
    const registry: JobRegistry

    /** The keys list the table's keys once each, and every entry is stored under its own id. */
    ghost predicate Valid()
      reads this
    {
      && Distinct(keys)
      && (forall k :: k in keys <==> k in reminders)
      && (forall k :: k in reminders ==> reminders[k].id == k)
    }

    /** The counter is past every stored id, so createReminder adds a new entry rather than replacing one. */
    ghost predicate CounterAhead()
      reads this
    {
      forall k :: k in reminders ==> k < currentId
    }

    /** An empty table whose counter starts at 1. */
    constructor (registry: JobRegistry)
      ensures Valid() && CounterAhead()
      ensures keys == [] && reminders == map[] && currentId == 1
      ensures this.registry == registry
    {
      keys := [];
      reminders := map[];
      currentId := 1;
      this.registry := registry;
    }

    /**
     * createReminder: hand out the current id, advance the counter by one,
     * store a not-completed copy of the draft under that id and schedule it.
     */
    method CreateReminder(draft: Draft, clock: Clock) returns (r: Reminder, armed: bool)
      requires Valid()
      modifies this, registry
      ensures Valid()
      ensures r.id == old(currentId) && currentId == old(currentId) + 1
      ensures !r.completed
      ensures r.title == draft.title && r.description == draft.description
      ensures r.dueDate == draft.dueDate && r.frequency == draft.frequency
      ensures reminders == old(reminders)[r.id := r]
      ensures keys == InsertKey(old(keys), r.id)
      ensures registry.jobs == Arm(old(registry.jobs), r, clock, armed)
      ensures old(CounterAhead()) ==> CounterAhead() && r.id !in old(reminders) && |reminders| == |old(reminders)| + 1
    {
      var id := currentId;
      currentId := currentId + 1;
      r := Reminder(id, draft.title, draft.description, draft.dueDate, draft.frequency, false);
      Put(r);
      armed := registry.ScheduleReminder(r, clock);
    }

    /** getReminders: the stored reminders in the table's order, each exactly once. */
    method GetReminders() returns (rs: seq<Reminder>)
      requires Valid()
      ensures |rs| == |keys| == |reminders|
      ensures forall i :: 0 <= i < |rs| ==> keys[i] in reminders && rs[i] == reminders[keys[i]]
      ensures forall r :: r in rs <==> r in reminders.Values
      ensures forall i, j :: 0 <= i < j < |rs| ==> rs[i].id != rs[j].id
      ensures ListsTable(rs, keys, reminders)
    {
      assert forall k :: k in keys ==> k in reminders;
      assert forall i :: 0 <= i < |keys| ==> keys[i] in keys;
      rs := seq(|keys|, i requires 0 <= i < |keys| && keys[i] in reminders reads this => reminders[keys[i]]);
      DistinctCardinality(keys);
      assert reminders.Keys == set k | k in keys by {
        forall k | k in reminders.Keys ensures k in keys { }
      }
      forall r | r in reminders.Values
        ensures r in rs
      {
        var k :| k in reminders && reminders[k] == r;
        var i :| 0 <= i < |keys| && keys[i] == k;
        assert rs[i] == r;
      }
    }

    /**
     * markCompleted: an unknown id fails with "Reminder not found" and changes
     * nothing; a known id gets a copy with `completed` set, keeps its place,
     * and loses its job.
     */
    method MarkCompleted(id: int) returns (res: Result<Reminder>)
      requires Valid()
      modifies this, registry
      ensures Valid()
      ensures keys == old(keys) && currentId == old(currentId)
      ensures id !in old(reminders) ==>
        res == Err(NotFound) && reminders == old(reminders) && registry.jobs == old(registry.jobs)
      ensures id in old(reminders) ==>
        && res == Ok(old(reminders)[id].(completed := true))
        && reminders == old(reminders)[id := res.value]
        && registry.jobs == old(registry.jobs) - {id}
      ensures old(CounterAhead()) ==> CounterAhead()
    {
      if id !in reminders {
        return Err(NotFound);
      }
      var updated := reminders[id].(completed := true);
      reminders := reminders[id := updated];
      registry.CancelScheduledReminder(id);
      res := Ok(updated);
    }

    /**
     * deleteReminder: an unknown id fails with "Reminder not found" and changes
     * nothing; a known id loses its entry and its job.
     */
    method DeleteReminder(id: int) returns (res: Result<()>)
      requires Valid()
      modifies this, registry
      ensures Valid()
      ensures currentId == old(currentId)
      ensures id !in old(reminders) ==>
        res == Err(NotFound) && reminders == old(reminders) && keys == old(keys) && registry.jobs == old(registry.jobs)
      ensures id in old(reminders) ==>
        && res == Ok(())
        && reminders == old(reminders) - {id}
        && keys == RemoveKey(old(keys), id)
        && (exists p :: 0 <= p < |old(keys)| && old(keys)[p] == id && keys == old(keys)[..p] + old(keys)[p + 1..])
        && registry.jobs == old(registry.jobs) - {id}
      ensures old(CounterAhead()) ==> CounterAhead()
    {
      if id !in reminders {
        return Err(NotFound);
      }
      var p :| 0 <= p < |keys| && keys[p] == id;
      RemoveKeyAt(keys, id, p);
      reminders := reminders - {id};
      keys := RemoveKey(keys, id);
      registry.CancelScheduledReminder(id);
      res := Ok(());
    }

    /**
     * loadReminders, given what the 'reminders' slot held. No value: nothing
     * changes. Unparseable text: the load fails before anything changes. A
     * parsed list: each reminder is set into the table, without clearing it,
     * and scheduled, and the counter is overwritten with one past the largest
     * loaded id (1 for an empty list), even when that is below its old value.
     */
    method LoadReminders(stored: Stored, clock: Clock) returns (ok: bool, armed: seq<bool>)
      requires Valid()
      modifies this, registry
      ensures Valid()
      ensures ok <==> !stored.Malformed?
      ensures !stored.Parsed? ==>
        armed == [] && keys == old(keys) && reminders == old(reminders)
        && currentId == old(currentId) && registry.jobs == old(registry.jobs)
      ensures stored.Parsed? ==>
        && |armed| == |stored.items|
        && reminders == MergeEntries(old(reminders), stored.items)
        && keys == MergeOrder(old(keys), stored.items)
        && registry.jobs == ArmAll(old(registry.jobs), stored.items, armed, clock)
        && currentId == NextIdAfterLoad(stored.items)
      ensures stored.Parsed? ==> forall i :: 0 <= i < |stored.items| ==>
        stored.items[i].id in reminders && stored.items[i].id < currentId
      ensures stored.Parsed? && (forall k :: k in old(reminders) ==> k < NextIdAfterLoad(stored.items)) ==>
        CounterAhead()
      ensures stored.Parsed? ==> forall i ::
        (0 <= i < |stored.items| && armed[i]
         && forall j :: i < j < |stored.items| && armed[j] ==> stored.items[j].id != stored.items[i].id)
        ==> stored.items[i].id in registry.jobs && registry.jobs[stored.items[i].id] == JobFor(stored.items[i], clock)
    {
      armed := [];
      if stored.Missing? {
        return true, armed;
      }
      if stored.Malformed? {
        return false, armed;
      }
      armed := SetAll(stored.items, clock);
      currentId := NextIdAfterLoad(stored.items);
      ok := true;
      MergeEntriesKeys(old(reminders), stored.items);
      forall i | 0 <= i < |stored.items| && armed[i]
        && (forall j :: i < j < |stored.items| && armed[j] ==> stored.items[j].id != stored.items[i].id)
        ensures stored.items[i].id in registry.jobs && registry.jobs[stored.items[i].id] == JobFor(stored.items[i], clock)
      {
        ArmAllLastWins(old(registry.jobs), stored.items, armed, clock, i);
      }
    }

    /** `this.reminders.set(r.id, r)`: store `r` under its id, replacing any entry there. */
    method Put(r: Reminder)
      requires Valid()
      modifies this
      ensures Valid()
      ensures reminders == old(reminders)[r.id := r]
      ensures keys == InsertKey(old(keys), r.id)
      ensures currentId == old(currentId)
    {
      reminders := reminders[r.id := r];
      keys := InsertKey(keys, r.id);
    }

    /** The `forEach` of loadReminders: set each reminder into the table and schedule it, in list order. */
    method SetAll(items: seq<Reminder>, clock: Clock) returns (armed: seq<bool>)
      requires Valid()
      modifies this, registry
      ensures Valid()
      ensures |armed| == |items|
      ensures reminders == MergeEntries(old(reminders), items)
      ensures keys == MergeOrder(old(keys), items)
      ensures registry.jobs == ArmAll(old(registry.jobs), items, armed, clock)
      ensures currentId == old(currentId)
    {
      armed := [];
      var i := 0;
      while i < |items|
        invariant 0 <= i <= |items|
        invariant Valid()
        invariant |armed| == i
        invariant currentId == old(currentId)
        invariant reminders == MergeEntries(old(reminders), items[..i])
        invariant keys == MergeOrder(old(keys), items[..i])
        invariant registry.jobs == ArmAll(old(registry.jobs), items[..i], armed, clock)
      {
        var r := items[i];
        Put(r);
        var a := registry.ScheduleReminder(r, clock);
        assert items[..i + 1][..i] == items[..i];
        assert (armed + [a])[..i] == armed;
        armed := armed + [a];
        i := i + 1;
      }
      assert items[..i] == items;
    }
  }
}
