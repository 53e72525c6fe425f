/**
 The growable list of the granular engine (modules/RnboExport/rnbo/common/RNBO_List.h): an array with spare room, whose
 first `length` slots are the list.
 */
module ListBases {

  const LIST_CHUNK_SIZE: nat := 8

  /** A negative start counts from the end. */
  function EffectiveStart(start: int, length: nat): nat {
    if start >= 0 then start else if start + length >= 0 then start + length else 0
  }

  /** How many items splice removes: none from the end of the list on. */
  function Removed(start: nat, deleteCount: nat, length: nat): nat {
    if start >= length then 0 else if start + deleteCount > length then length - start else deleteCount
  }

  /** It is the largest number that is at most `deleteCount` and at most the items from `start` on. */
  lemma RemovedIsLargest(start: nat, deleteCount: nat, length: nat, k: nat)
    ensures k <= Removed(start, deleteCount, length) <==> k <= deleteCount && (k == 0 || start + k <= length)
  {
  }

  /** A start k before the end is the start at that item; one before the first item is the first. */
  lemma StartFromTheEnd(k: int, length: nat)
    requires k >= 0
    ensures 0 < k <= length ==> EffectiveStart(-k, length) == EffectiveStart(length - k, length) == length - k
    ensures k > length ==> EffectiveStart(-k, length) == 0
    ensures EffectiveStart(k, length) == k
  {
  }

  /** What the documentation of splice promises: a start beyond the list means its end. */
  function Spliced<T>(s: seq<T>, start: nat, deleteCount: nat, args: seq<T>): seq<T> {
    var from := if start > |s| then |s| else start;
    s[..from] + args + s[from + Removed(start, deleteCount, |s|)..]
  }

  /** The number of slots after room for `size` items was asked for. */
  function Grown(size: nat, capacity: nat): (r: nat)
    ensures r >= size && r >= capacity
  {
    if size > capacity then LIST_CHUNK_SIZE + size / LIST_CHUNK_SIZE * LIST_CHUNK_SIZE else capacity
  }

  /** A growing list gets the next multiple of eight slots beyond what was asked for; nothing ever shrinks. */
  lemma GrownIsNextChunk(size: nat, capacity: nat)
    ensures size <= capacity ==> Grown(size, capacity) == capacity
    ensures size > capacity ==>
      Grown(size, capacity) % 8 == 0 && size < Grown(size, capacity) <= size + 8
  {
  }

  /** Inserting at `start` stays inside `capacity` slots. */
  predicate WritesFit(length: nat, capacity: nat, start: nat, added: nat) {
    start <= length || added == 0 || start + added <= capacity
  }

  /** What splice leaves in the list, for every start: past the end it writes at the start it was given, into spare
      slots. */
  function SplicedSlots<T>(slots: seq<T>, length: nat, start: nat, deleteCount: nat, args: seq<T>): seq<T>
    requires length <= |slots| && WritesFit(length, |slots|, start, |args|)
  {
    if start <= length || args == [] then Spliced(slots[..length], start, deleteCount, args)
    else Overwritten(slots, start, args)[..length + |args|]
  }

  function Overwritten<T>(slots: seq<T>, at: nat, args: seq<T>): seq<T>
    requires args == [] || at + |args| <= |slots|
  {
    if args == [] then slots else slots[..at] + args + slots[at + |args|..]
  }

  /** Item by item: the part before the start, the inserted items, and what follows the removed ones. */
  lemma SplicedItems<T>(s: seq<T>, start: nat, deleteCount: nat, args: seq<T>, i: nat)
    requires start <= |s| && i < |Spliced(s, start, deleteCount, args)|
    ensures var gone := Removed(start, deleteCount, |s|);
      && |Spliced(s, start, deleteCount, args)| == |s| - gone + |args|
      && Spliced(s, start, deleteCount, args)[i] ==
           if i < start then s[i] else if i < start + |args| then args[i - start] else s[i - |args| + gone]
  {
  }

  /** Past the end the list grows by as many slots as there are new items, which show up from the start on; the
      slots between keep what memory held. */
  lemma SplicedPastTheEnd<T>(slots: seq<T>, length: nat, start: nat, deleteCount: nat, args: seq<T>, i: nat)
    requires length < start && length <= |slots| && WritesFit(length, |slots|, start, |args|) && args != []
    requires i < length + |args|
    ensures |SplicedSlots(slots, length, start, deleteCount, args)| == length + |args|
    ensures SplicedSlots(slots, length, start, deleteCount, args)[i] == if i < start then slots[i] else args[i - start]
  {
  }

  /** The memory that splice works on: the old one, or a larger one that begins with the list. */
  ghost predicate IsMemory<T>(memory: seq<T>, slots: seq<T>, length: nat, start: nat, added: nat)
    requires length <= |slots|
  {
    && length <= |memory| && memory[..length] == slots[..length]
    && (start <= length || length + added <= |slots| ==> memory == slots)
    && WritesFit(length, |memory|, start, added)
  }

  /** The documented meaning holds for every memory if and only if the start is within the list or nothing is
      inserted. */
  lemma SpliceIsAsDocumentedIff(length: nat, capacity: nat, start: nat, deleteCount: nat, args: seq<int>)
    requires length <= capacity && WritesFit(length, capacity, start, |args|)
    ensures start <= length || args == [] <==>
      forall slots: seq<int> :: |slots| == capacity ==>
        SplicedSlots(slots, length, start, deleteCount, args) == Spliced(slots[..length], start, deleteCount, args)
  {
    if start > length && args != [] {
      var slots := seq(capacity, _ => args[0] + 1);
      assert SplicedSlots(slots, length, start, deleteCount, args)[length] == slots[length];
      assert Spliced(slots[..length], start, deleteCount, args)[length] == args[0];
    }
  }

  /** Removing what was inserted and putting back what was removed restores the list. */
  lemma SpliceInverts<T>(s: seq<T>, start: nat, deleteCount: nat, args: seq<T>)
    requires start <= |s|
    ensures var gone := Removed(start, deleteCount, |s|);
      Spliced(Spliced(s, start, deleteCount, args), start, |args|, s[start..start + gone]) == s
  {
    var gone := Removed(start, deleteCount, |s|);
    var t := Spliced(s, start, deleteCount, args);
    assert t[..start] == s[..start];
    assert t[start + |args|..] == s[start + gone..];
  }

  lemma NothingLeft<T>(slots: seq<T>, length: nat, start: nat, deleteCount: nat, args: seq<T>)
    requires length <= |slots| && length + |args| <= Removed(start, deleteCount, length)
    requires WritesFit(length, |slots|, start, |args|)
    ensures args == [] && SplicedSlots(slots, length, start, deleteCount, args) == []
  {
  }

  lemma TailMoved<T>(kept: seq<T>, moved: seq<T>, from: nat, count: nat, added: nat, length: nat)
    requires from + count <= length <= |kept| && length - count + added <= |moved| == |kept|
    requires added < count ==> moved[from..length - (count - added)] == kept[from + (count - added)..length]
    requires added > count && from < length ==>
      moved[from + (added - count)..length + (added - count)] == kept[from..length]
    requires added == count ==> moved == kept
    ensures moved[from + added..length - count + added] == kept[from + count..length]
  {
    if added < count {
      var x, y := moved[from..length - (count - added)], kept[from + (count - added)..length];
      assert x[added..] == moved[from + added..length - count + added];
      assert y[added..] == kept[from + count..length];
    } else if added > count && from < length {
      var x, y := moved[from + (added - count)..length + (added - count)], kept[from..length];
      assert x[count..] == moved[from + added..length - count + added];
      assert y[count..] == kept[from + count..length];
    }
  }

  lemma SamePrefix<T>(a: seq<T>, b: seq<T>, i: nat, j: nat, n: nat)
    requires i <= j <= n <= |a| && n <= |b| && a[..n] == b[..n]
    ensures a[..i] == b[..i] && a[j..n] == b[j..n]
  {
    assert a[..i] == a[..n][..i] && b[..i] == b[..n][..i];
    assert a[j..n] == a[..n][j..] && b[j..n] == b[..n][j..];
  }

  lemma Assembled<T>(items: seq<T>, moved: seq<T>, written: seq<T>, from: nat, count: nat, args: seq<T>)
    requires from + count <= |items| && |items| - count + |args| <= |moved|
    requires moved[..from] == items[..from]
    requires moved[from + |args|..|items| - count + |args|] == items[from + count..]
    requires from + |args| <= |moved| && written == Overwritten(moved, from, args)
    ensures written[..|items| - count + |args|] == items[..from] + args + items[from + count..]
  {
    var n := |items| - count + |args|;
    assert written[from + |args|..n] == moved[from + |args|..n];
    assert written[..n] == written[..from + |args|] + written[from + |args|..n];
    assert written[..from + |args|] == moved[..from] + args;
  }

  class ListBase<T(0)> {
    var values: array<T>
    var length: nat

    ghost predicate Valid()
      reads this
    {
      length <= values.Length
    }

    ghost function Items(): (s: seq<T>)
      requires Valid()
      reads this, values
      ensures |s| == length
    {
      values[..length]
    }

    constructor ()
      ensures Valid() && fresh(values) && Items() == []
    {
      values := new T[0];
      length := 0;
    }

    /** Room for `size` items and at least one more; the list survives when asked for. */
    method Allocate(size: nat, keepValues: bool)
      requires Valid()
      modifies this`values
      ensures length <= values.Length == Grown(size, old(values.Length))
      ensures if size > old(values.Length) then fresh(values) else values == old(values)
      ensures keepValues ==> values[..length] == old(values[..length])
    {
      if size > values.Length {
        var oldValues := values;
        values := new T[Grown(size, values.Length)];
        if keepValues {
          for i := 0 to length
            invariant values.Length == Grown(size, oldValues.Length) && fresh(values) && values != oldValues
            invariant oldValues[..] == old(values[..])
            invariant values[..i] == oldValues[..i]
          {
            values[i] := oldValues[i];
          }
        }
      }
    }

    method Push(item: T)
      requires Valid()
      modifies this, values
      ensures Valid() && (values == old(values) || fresh(values))
      ensures Items() == old(Items()) + [item]
    {
      Allocate(length + 1, true);
      values[length] := item;
      length := length + 1;
    }

    /** Moves the slots from `from + gap` up to the end down by `gap`. */
    method MoveDown(from: nat, gap: nat)
      requires Valid() && from + gap <= length
      modifies values
      ensures values[..from] == old(values[..from])
      ensures values[from..length - gap] == old(values[from + gap..length])
    {
      for i := from + gap to length
        invariant forall k :: 0 <= k < from || i - gap <= k < values.Length ==> values[k] == old(values[k])
        invariant forall k :: from <= k < i - gap ==> values[k] == old(values[k + gap])
      {
        values[i - gap] := values[i];
      }
    }

    /** Moves the slots from `from` up to the end up by `gap`. */
    method MoveUp(from: nat, gap: nat)
      requires Valid() && from <= length && length + gap <= values.Length
      modifies values
      ensures values[..from] == old(values[..from])
      ensures values[from + gap..length + gap] == old(values[from..length])
    {
      for i := length downto from
        invariant forall k :: 0 <= k < i + gap && k < values.Length ==> values[k] == old(values[k])
        invariant forall k :: i + gap <= k < length + gap ==> values[k] == old(values[k - gap])
      {
        values[i + gap] := values[i];
      }
    }

    method WriteAll(at: nat, args: seq<T>)
      requires args == [] || at + |args| <= values.Length
      modifies values
      ensures values[..] == Overwritten(old(values[..]), at, args)
    {
      for i := 0 to |args|
        invariant forall k :: 0 <= k < values.Length ==>
                    values[k] == if at <= k < at + i then args[k - at] else old(values[k])
      {
        values[at + i] := args[i];
      }
    }

    method CopyOut(from: nat, count: nat) returns (items: ListBase<T>)
      requires Valid() && from + count <= length
      ensures items.Valid() && fresh(items) && fresh(items.values)
      ensures items.Items() == values[from..from + count]
    {
      items := new ListBase();
      items.Allocate(count, false);
      for i := 0 to count
        invariant items.Valid() && fresh(items) && fresh(items.values)
        invariant items.Items() == values[from..from + i]
      {
        items.Push(values[from + i]);
        assert values[from..from + i + 1] == values[from..from + i] + [values[from + i]];
      }
    }

    /** Makes room and moves the items behind the `count` removed ones to where they belong behind `added` new ones. */
    method ShiftTail(from: nat, count: nat, added: nat)
      requires Valid() && from + count <= length
      modifies this`values, values
      ensures Valid() && (values == old(values) || fresh(values))
      ensures length - count + added <= values.Length
      ensures values[..from] == old(values[..from])
      ensures values[from + added..length - count + added] == old(values[from + count..length])
    {
      Allocate(length - count + added, true);
      ghost var kept := values[..];
      if added < count {
        MoveDown(from, count - added);
      } else if added > count {
        MoveUp(from, added - count);
      }
      TailMoved(kept, values[..], from, count, added, length);
      SamePrefix(kept, old(values[..]), from, from + count, length);
    }

    /** The second half of splice: room, the overlapping move, the new items, the new length. */
    method Replace(from: nat, count: nat, args: seq<T>)
      requires Valid() && from + count <= length
      modifies this, values
      ensures Valid() && (values == old(values) || fresh(values))
      ensures Items() == old(Items()[..from]) + args + old(Items()[from + count..])
    {
      ghost var items := Items();
      ShiftTail(from, count, |args|);
      ghost var moved := values[..];
      WriteAll(from, args);
      Assembled(items, moved, values[..], from, count, args);
      length := length - count + |args|;
    }

    /** The same statements when the start lies beyond the list: nothing is removed, nothing moves, and the new
        items go where the start says, into the memory there is after the allocation. */
    method Insert(from: nat, args: seq<T>) returns (ghost memory: seq<T>)
      requires Valid() && length < from
      requires WritesFit(length, Grown(length + |args|, values.Length), from, |args|)
      modifies this, values
      ensures Valid() && (values == old(values) || fresh(values))
      ensures IsMemory(memory, old(values[..]), old(length), from, |args|)
      ensures Items() == SplicedSlots(memory, old(length), from, 0, args)
    {
      Allocate(length + |args|, true);
      memory := values[..];
      WriteAll(from, args);
      length := length + |args|;
    }

    /** The first half of splice: how many items go, and a list of them. */
    method CollectRemoved(from: nat, deleteCount: nat) returns (count: nat, deleted: ListBase<T>)
      requires Valid()
      ensures count == Removed(from, deleteCount, length)
      ensures deleted.Valid() && fresh(deleted) && fresh(deleted.values)
      ensures deleted.Items() == if from < length then Items()[from..from + count] else []
    {
      var iStart := from;
      count := deleteCount;
      if iStart >= length {
        count := 0;
        iStart := length;
      }
      if iStart + count > length {
        count := length - iStart;
      }
      deleted := CopyOut(iStart, count);
      if from < length {
        assert values[from..from + count] == values[..length][from..from + count];
      }
    }

    /** Contents for every start. Past the end the items between are whatever memory holds there; only a start whose
        slots lie outside even the grown allocation, where the program's behaviour is undefined, is excluded. */
    method Splice(start: int, deleteCount: nat, args: seq<T>) returns (deleted: ListBase<T>, ghost memory: seq<T>)
      requires Valid()
      requires WritesFit(length, Grown(length + |args|, values.Length), EffectiveStart(start, length), |args|)
      modifies this, values
      ensures Valid() && (values == old(values) || fresh(values))
      ensures deleted.Valid() && fresh(deleted) && fresh(deleted.values)
      ensures var s := EffectiveStart(start, old(length));
        && IsMemory(memory, old(values[..]), old(length), s, |args|)
        && Items() == SplicedSlots(memory, old(length), s, deleteCount, args)
      ensures var s, n := EffectiveStart(start, old(length)), old(length);
        deleted.Items() == if s < n then old(Items())[s..s + Removed(s, deleteCount, n)] else []
    {
      var from := start;
      if from < 0 {
        from := from + length;
      }
      if from < 0 {
        from := 0;
      }
      deleted, memory := SpliceFrom(from, deleteCount, args);
    }

    method SpliceFrom(from: nat, deleteCount: nat, args: seq<T>) returns (deleted: ListBase<T>, ghost memory: seq<T>)
      requires Valid() && WritesFit(length, Grown(length + |args|, values.Length), from, |args|)
      modifies this, values
      ensures Valid() && (values == old(values) || fresh(values))
      ensures deleted.Valid() && fresh(deleted) && fresh(deleted.values)
      ensures IsMemory(memory, old(values[..]), old(length), from, |args|)
      ensures Items() == SplicedSlots(memory, old(length), from, deleteCount, args)
      ensures var n := old(length);
        deleted.Items() == if from < n then old(Items())[from..from + Removed(from, deleteCount, n)] else []
    {
      var count;
      count, deleted := CollectRemoved(from, deleteCount);
      memory := Rewrite(from, deleteCount, count, args);
    }

    /** What splice does to the list once it has copied the removed items. */
    method Rewrite(from: nat, ghost deleteCount: nat, count: nat, args: seq<T>) returns (ghost memory: seq<T>)
      requires Valid() && WritesFit(length, Grown(length + |args|, values.Length), from, |args|)
      requires count == Removed(from, deleteCount, length)
      modifies this, values
      ensures Valid() && (values == old(values) || fresh(values))
      ensures IsMemory(memory, old(values[..]), old(length), from, |args|)
      ensures Items() == SplicedSlots(memory, old(length), from, deleteCount, args)
    {
      memory := values[..];
      assert Items() == memory[..length];
      if length + |args| <= count {
        NothingLeft(memory, length, from, deleteCount, args);
        length := 0;
      } else if from <= length {
        Replace(from, count, args);
      } else {
        memory := Insert(from, args);
      }
    }
  }
}
