/**
  The in-memory ring of one log route: a circular buffer bounded by a line count
  and by a byte budget, refined against the sequence of entries it holds.
*/
module LogRing {
  import opened LogLines

  datatype Stream = Stdout | Stderr

  /** A captured line (dropped == 0), or a marker announcing `dropped` lost lines of its stream. */
  datatype Entry = Entry(stream: Stream, data: Bytes, seqNo: nat, dropped: nat)

  /** Cumulative data bytes. */
  function Size(entries: seq<Entry>): nat {
    if entries == [] then 0 else |entries[0].data| + Size(entries[1..])
  }

  predicate Within(entries: seq<Entry>, maxLines: nat, maxBytes: nat) {
    |entries| <= maxLines && Size(entries) <= maxBytes
  }

  /** What is left of the ring's contents once room for e has been made. */
  function Evict(view: seq<Entry>, e: Entry, maxLines: nat, maxBytes: nat): seq<Entry> {
    if view != [] && (|view| >= maxLines || Size(view) + |e.data| > maxBytes)
    then Evict(view[1..], e, maxLines, maxBytes)
    else view
  }

  /** The ring's contents after e has been pushed. */
  function Push(view: seq<Entry>, e: Entry, maxLines: nat, maxBytes: nat): seq<Entry> {
    Evict(view, e, maxLines, maxBytes) + [e]
  }

  lemma {:induction false} SizeAppend(a: seq<Entry>, e: Entry)
    ensures Size(a + [e]) == Size(a) + |e.data|
  {
    if a == [] {
      assert a + [e] == [e];
    } else {
      assert (a + [e])[1..] == a[1..] + [e];
      SizeAppend(a[1..], e);
    }
  }

  lemma {:induction false} SizeDrop(s: seq<Entry>, k: nat)
    requires k <= |s|
    ensures Size(s[k..]) <= Size(s)
  {
    if k == 0 {
      assert s[0..] == s;
    } else {
      SizeDrop(s[1..], k - 1);
      assert s[1..][k - 1..] == s[k..];
    }
  }

  /**
    A push keeps the longest suffix of old contents and new entry that is
    within both bounds, or the new entry alone when even that is too big.
   */
  lemma {:induction false} PushKeepsLongestSuffix(view: seq<Entry>, e: Entry, maxLines: nat, maxBytes: nat)
    requires maxLines > 0
    ensures var all := view + [e];
      var kept := Push(view, e, maxLines, maxBytes);
      && 0 < |kept| <= |all|
      && kept == all[|all| - |kept|..]
      && (kept == [e] || Within(kept, maxLines, maxBytes))
      && (forall k :: 0 <= k < |all| - |kept| ==> !Within(all[k..], maxLines, maxBytes))
  {
    var all := view + [e];
    var kept := Push(view, e, maxLines, maxBytes);
    SizeAppend(view, e);
    if view != [] && (|view| >= maxLines || Size(view) + |e.data| > maxBytes) {
      PushKeepsLongestSuffix(view[1..], e, maxLines, maxBytes);
      var rest := view[1..] + [e];
      assert all[1..] == rest;
      assert kept == rest[|rest| - |kept|..] == all[|all| - |kept|..];
      forall k | 0 <= k < |all| - |kept|
        ensures !Within(all[k..], maxLines, maxBytes)
      {
        if k == 0 {
          assert all[0..] == all;
        } else {
          assert all[k..] == rest[k - 1..];
        }
      }
    } else {
      assert all[0..] == all;
    }
  }

  /** Where the i-th live entry sits in a buffer of n slots. */
  function Slot(head: nat, i: nat, n: nat): (k: nat)
    requires head < n && i <= n
    ensures k < n && k == (head + i) % n
  {
    WrapsOnce(head + i, n);
    if head + i < n then head + i else head + i - n
  }

  lemma WrapsOnce(x: nat, n: nat)
    requires 0 < n && x < 2 * n
    ensures x % n == if x < n then x else x - n
  {
    if x < n {
    } else {
      assert x == n + (x - n);
      assert (n + (x - n)) % n == (x - n) % n by {
        AddModulus(x - n, n);
      }
    }
  }

  lemma AddModulus(y: nat, n: nat)
    requires y < n
    ensures (n + y) % n == y
  {
  }

  /** The ring fields of a route, updated in place. */
  class Ring {
    const maxBytes: nat
    var slots: array<Entry>
    var head: nat
    var count: nat
    var ringLen: int
    var evicted: nat

    ghost predicate Valid()
      reads this, slots
    {
      && 0 < slots.Length
      && head < slots.Length && count <= slots.Length
      && ringLen == Size(View())
    }

    /** The live entries, oldest first. */
    ghost function View(): (v: seq<Entry>)
      reads this, slots
    {
      if head < slots.Length && count <= slots.Length then
        seq(count, i requires 0 <= i < count && head < slots.Length && count <= slots.Length
              reads this, slots => slots[Slot(head, i, slots.Length)])
      else []
    }

    constructor (maxLines: nat, maxBytes: nat)
      requires 0 < maxLines
      ensures Valid() && fresh(slots)
      ensures View() == [] && slots.Length == maxLines && this.maxBytes == maxBytes && evicted == 0
    {
      this.maxBytes := maxBytes;
      slots := new Entry[maxLines](_ => Entry(Stdout, [], 0, 0));
      head, count, ringLen, evicted := 0, 0, 0, 0;
    }

    /** Drop the oldest entry and count it. */
    method EvictOldest()
      requires Valid() && count > 0
      modifies this`head, this`count, this`ringLen, this`evicted
      ensures Valid() && View() == old(View())[1..] && evicted == old(evicted) + 1
    {
      ghost var before := View();
      var oldest := slots[head];
      ringLen := ringLen - |oldest.data|;
      assert before[0] == oldest by { assert Slot(head, 0, slots.Length) == head; }
      WrapsOnce(head + 1, slots.Length);
      head := (head + 1) % slots.Length;
      count := count - 1;
      evicted := evicted + 1;
      assert View() == before[1..];
    }

    /** Write e into the first free slot. */
    method PutNewest(e: Entry)
      requires Valid() && count < slots.Length
      modifies this`count, this`ringLen, slots
      ensures Valid() && View() == old(View()) + [e] && count == old(count) + 1
    {
      ghost var kept := View();
      SizeAppend(kept, e);
      var tail := (head + count) % slots.Length;
      assert tail == Slot(head, count, slots.Length);
      slots[tail] := e;
      ringLen := ringLen + |e.data|;
      count := count + 1;
      assert View() == kept + [e];
    }

    /** Insert e, evicting oldest entries until it fits both bounds. */
    method PushRing(e: Entry) returns (gone: nat)
      requires Valid()
      modifies this`head, this`count, this`ringLen, this`evicted, slots
      ensures Valid() && View() == Push(old(View()), e, slots.Length, maxBytes)
      ensures gone == old(count) + 1 - count && evicted == old(evicted) + gone
    {
      gone := 0;
      ghost var target := Evict(View(), e, slots.Length, maxBytes);
      if count == slots.Length {
        EvictOldest();
        gone := gone + 1;
      }
      while count > 0 && ringLen + |e.data| > maxBytes
        invariant Valid() && count < slots.Length
        invariant Evict(View(), e, slots.Length, maxBytes) == target
        invariant gone == old(count) - count && evicted == old(evicted) + gone
        decreases count
      {
        EvictOldest();
        gone := gone + 1;
      }
      PutNewest(e);
    }

    /** Forget every entry; the eviction counter is left alone. */
    method Clear()
      requires Valid()
      modifies this`slots, this`head, this`count, this`ringLen
      ensures Valid() && fresh(slots) && slots.Length == old(slots.Length) && View() == []
    {
      slots := new Entry[slots.Length](_ => Entry(Stdout, [], 0, 0));
      head, count, ringLen := 0, 0, 0;
    }

    /** Every live entry the caller wants, oldest first. */
    method BacklogAll(includeStderr: bool, merged: bool) returns (out: seq<Entry>)
      requires Valid()
      ensures out == Wanted(View(), includeStderr || merged)
    {
      out := [];
      for i := 0 to count
        invariant out == Wanted(View()[..i], includeStderr || merged)
      {
        var e := slots[(head + i) % slots.Length];
        assert e == View()[i] by { assert Slot(head, i, slots.Length) == (head + i) % slots.Length; }
        assert View()[..i + 1][..i] == View()[..i];
        if e.stream == Stderr && !includeStderr && !merged {
          continue;
        }
        out := out + [e];
      }
      assert View()[..count] == View();
    }

    /** At most the n most recent of those. */
    method Backlog(n: int, includeStderr: bool, merged: bool) returns (out: seq<Entry>)
      requires Valid()
      ensures out == if n <= 0 then [] else LastN(Wanted(View(), includeStderr || merged), n)
    {
      if n <= 0 {
        return [];
      }
      out := BacklogAll(includeStderr, merged);
      if |out| > n {
        out := out[|out| - n..];
      }
    }
  }

  /** The entries a consumer asked for: stdout always, stderr on request. */
  function Wanted(entries: seq<Entry>, withStderr: bool): seq<Entry> {
    if entries == [] then []
    else
      var front := Wanted(entries[..|entries| - 1], withStderr);
      var last := entries[|entries| - 1];
      if last.stream == Stderr && !withStderr then front else front + [last]
  }

  function LastN<T>(s: seq<T>, n: nat): seq<T> {
    if |s| > n then s[|s| - n..] else s
  }
}
