/** The handle table of h.c: a growing array of entries with a used count kept beside it. */
module Handles {
  import opened Basics

  const H_INCR: nat := 16

  // ----- Slots -----

  ghost function Count<T>(s: seq<Option<T>>): (n: nat)
    ensures n <= |s|
  {
    if s == [] then 0 else Count(s[..|s| - 1]) + (if s[|s| - 1].Some? then 1 else 0)
  }

  /** One more than the greatest live handle, or 0 when there is none. */
  ghost function Top<T>(s: seq<Option<T>>): (n: nat)
    ensures n <= |s| && (n > 0 ==> s[n - 1].Some?)
    ensures forall i :: n <= i < |s| ==> s[i].None?
  {
    if s == [] then 0 else if s[|s| - 1].Some? then |s| else Top(s[..|s| - 1])
  }

  lemma {:induction false} TopUnique<T>(s: seq<Option<T>>, n: nat)
    requires n <= |s| && (n > 0 ==> s[n - 1].Some?)
    requires forall i :: n <= i < |s| ==> s[i].None?
    ensures Top(s) == n
  {
  }

  /** The least free handle; the length when every slot is live. */
  function FirstFree<T>(s: seq<Option<T>>): (h: nat)
    ensures h <= |s| && (h < |s| ==> s[h].None?)
    ensures forall i :: 0 <= i < h ==> s[i].Some?
  {
    if s == [] || s[0].None? then 0 else 1 + FirstFree(s[1..])
  }

  lemma {:induction false} FirstFreeUnique<T>(s: seq<Option<T>>, h: nat)
    requires h <= |s| && (h < |s| ==> s[h].None?)
    requires forall i :: 0 <= i < h ==> s[i].Some?
    ensures h == FirstFree(s)
  {
  }

  lemma {:induction false} CountUpdate<T>(s: seq<Option<T>>, i: nat, v: Option<T>)
    requires i < |s|
    ensures Count(s[i := v]) == Count(s) - (if s[i].Some? then 1 else 0) + (if v.Some? then 1 else 0)
  {
    var n := |s| - 1;
    if i < n {
      CountUpdate(s[..n], i, v);
      assert s[i := v][..n] == s[..n][i := v];
    } else {
      assert s[i := v][..n] == s[..n];
    }
  }

  /** A table is full exactly when its count reaches its length. */
  lemma {:induction false} CountFull<T>(s: seq<Option<T>>)
    ensures Count(s) == |s| <==> forall i :: 0 <= i < |s| ==> s[i].Some?
    ensures Count(s) == 0 <==> forall i :: 0 <= i < |s| ==> s[i].None?
  {
    if s != [] {
      var n := |s| - 1;
      CountFull(s[..n]);
      assert forall i :: 0 <= i < n ==> s[i] == s[..n][i];
    }
  }

  function Nulls<T>(n: nat): (s: seq<Option<T>>)
    ensures |s| == n && forall i :: 0 <= i < n ==> s[i].None?
  {
    seq(n, _ => None)
  }

  /** Null slots at the end change neither the count nor the greatest live handle. */
  lemma {:induction false} Padded<T>(s: seq<Option<T>>, n: nat)
    ensures Count(s + Nulls<T>(n)) == Count(s)
    ensures Top(s + Nulls<T>(n)) == Top(s)
  {
    if n == 0 {
      assert s + Nulls<T>(0) == s;
    } else {
      var t := s + Nulls<T>(n);
      assert t[..|t| - 1] == s + Nulls<T>(n - 1);
      Padded(s, n - 1);
    }
  }

  // ----- What a client sees -----

  /** The live part of a table, up to its greatest live handle. */
  ghost function View<T>(s: seq<Option<T>>): (v: seq<Option<T>>)
  {
    s[..Top(s)]
  }

  /** Storing at the least free handle. */
  function Stored<T>(v: seq<Option<T>>, x: T): (r: seq<Option<T>>)
  {
    var h := FirstFree(v);
    if h < |v| then v[h := Some(x)] else v + [Some(x)]
  }

  function Trimmed<T>(v: seq<Option<T>>): (r: seq<Option<T>>)
    ensures r <= v && (r != [] ==> r[|r| - 1].Some?)
    ensures forall i :: |r| <= i < |v| ==> v[i].None?
  {
    if v == [] || v[|v| - 1].Some? then v else Trimmed(v[..|v| - 1])
  }

  /** Clearing one handle and giving up the free tail. */
  function Cleared<T>(v: seq<Option<T>>, h: nat): (r: seq<Option<T>>)
    requires h < |v|
  {
    Trimmed(v[h := None])
  }

  /** The first free slot lies at or below the top, so the view has the same one. */
  lemma {:induction false} FirstFreeInView<T>(s: seq<Option<T>>)
    ensures FirstFree(s) <= Top(s) && FirstFree(View(s)) == FirstFree(s)
  {
    assert Top(s) < |s| ==> s[Top(s)].None?;
    FirstFreeUnique(View(s), FirstFree(s));
  }

  /** Filling the first free slot stores in the view and moves the top as needed. */
  lemma {:induction false} StoredInView<T>(s: seq<Option<T>>, x: T)
    requires FirstFree(s) < |s|
    ensures var r := s[FirstFree(s) := Some(x)];
            && Count(r) == Count(s) + 1 && View(r) == Stored(View(s), x)
            && Top(r) == if FirstFree(s) < Top(s) then Top(s) else FirstFree(s) + 1
  {
    var h, n := FirstFree(s), Top(s);
    CountUpdate(s, h, Some(x));
    FirstFreeInView(s);
    TopUnique(s[h := Some(x)], if h < n then n else h + 1);
    assert View(s[h := Some(x)]) == Stored(View(s), x);
  }

  lemma {:induction false} TrimmedIsView<T>(s: seq<Option<T>>)
    ensures Trimmed(s) == View(s)
  {
    TopUnique(s, |Trimmed(s)|);
  }

  /** Clearing a slot clears it in the view, which then ends at the new top. */
  lemma {:induction false} ClearedInView<T>(s: seq<Option<T>>, h: nat)
    requires h < |s| && s[h].Some?
    ensures h < Top(s) && View(s[h := None]) == Cleared(View(s), h)
  {
    var t := s[h := None];
    var v := View(s)[h := None];
    assert v == t[..Top(s)];
    TopUnique(t, Top(v));
    TrimmedIsView(v);
  }

  // ----- The table -----

  class HandleList<T> {
    var slots: seq<Option<T>>    // the entries; the table's length word is |slots|
    var used: nat                // the table's used word
    var present: bool            // the table pointer is not null
    var max: nat                 // the caller's saved maximum

    ghost predicate Shape()
      reads this
    {
      && (present ==> |slots| >= H_INCR)
      && (!present ==> slots == [] && used == 0)
      && used >= Count(slots)
    }

    /** The used word counts the live entries and the saved maximum is one past the last of them. */
    ghost predicate Valid()
      reads this
    {
      Shape() && used == Count(slots) && (present ==> used > 0) && max == Top(slots)
    }

    constructor ()
      ensures Valid() && slots == [] && !present
    {
      slots, used, present, max := [], 0, false, 0;
    }

    /** Find the first null slot, growing the table when all are in use. The caller fills the slot. */
    method Alloc() returns (handle: nat)
      requires Shape()
      modifies this`slots, this`used, this`present
      ensures Shape() && present && used == old(used) + 1
      ensures handle < |slots| && slots[handle].None?
      ensures !old(present) || old(used < |slots|) || old(used == Count(slots)) ==> handle == FirstFree(slots)
      ensures Count(slots) == old(Count(slots)) && Top(slots) == old(Top(slots)) && View(slots) == old(View(slots))
      ensures |slots| == old(|slots|) + if old(present && used < |slots| && FirstFree(slots) < |slots|) then 0 else H_INCR
    {
      if !present {
        Extend();
        used, present := 0, true;
      }
      CountFull(slots);
      var len := |slots|;
      handle := len;
      if used < len {
        handle := 0;
        while handle < len
          invariant handle <= len
          invariant forall i :: 0 <= i < handle ==> slots[i].Some?
        {
          if slots[handle].None? {
            used := used + 1;
            FirstFreeUnique(slots, handle);
            return;
          }
          handle := handle + 1;
        }
      }
      ghost var full := Count(slots) == len;
      Extend();
      used := used + 1;
      if full {
        FirstFreeUnique(slots, handle);
      }
    }

    /** Make room for another chunk of null slots. */
    method Extend()
      modifies this`slots
      ensures |slots| == old(|slots|) + H_INCR && old(slots) <= slots
      ensures forall i :: old(|slots|) <= i < |slots| ==> slots[i].None?
      ensures Count(slots) == old(Count(slots)) && Top(slots) == old(Top(slots)) && View(slots) == old(View(slots))
    {
      Padded(slots, H_INCR);
      slots := slots + Nulls<T>(H_INCR);
    }

    /** Clear a slot, release a table whose count reaches 0, and return the greatest live handle plus one. */
    method Free(handle: nat) returns (newMax: nat)
      requires Shape() && present && handle < |slots|
      requires used > Count(slots[handle := None])
      modifies this`slots, this`used, this`present
      ensures Shape() && used == old(used) - 1
      ensures present <==> used > 0
      ensures slots == if present then old(slots)[handle := None] else []
      ensures used < |slots| || !present ==> newMax == Top(slots)
      ensures !present ==> forall i :: 0 <= i < old(|slots|) && i != handle ==> old(slots)[i].None?
    {
      slots := slots[handle := None];
      used := used - 1;
      CountFull(slots);
      assert forall i :: 0 <= i < |slots| && i != handle ==> old(slots)[i] == slots[i];
      if used == 0 {
        slots, present := [], false;
      }
      if !present {
        return 0;
      }
      var h: int := |slots| - 1;
      if used < |slots| {
        while h >= 0
          invariant -1 <= h < |slots|
          invariant forall i :: h < i < |slots| ==> slots[i].None?
        {
          if slots[h].Some? {
            break;
          }
          h := h - 1;
        }
        TopUnique(slots, h + 1);
      } else {
        h := |slots|;
      }
      newMax := h + 1;
    }

    /**
     * Allocate an entry and record the new maximum. `stored` says whether the entry's memory was
     * granted. An entry of size 0 is counted but leaves its slot null: the used word then runs
     * ahead of the live entries, and it does so in no other case.
     */
    method AllocEntry(size: nat, entry: T, stored: bool) returns (id: int)
      requires Shape()
      modifies this
      ensures Shape()
      ensures used - Count(slots) == old(used - Count(slots)) + (if size == 0 then 1 else 0)
      ensures old(Valid()) && size > 0 ==> Valid()
      ensures old(Valid()) && size > 0 && stored ==>
                id == FirstFree(old(View(slots))) && View(slots) == Stored(old(View(slots)), entry)
      ensures size == 0 || !stored ==> View(slots) == old(View(slots))
      ensures id < 0 <==> size > 0 && !stored
      ensures id >= 0 && (!old(present) || old(used < |slots|)) ==> id == FirstFree(old(View(slots)))
    {
      id := Alloc();
      FirstFreeInView(slots);
      if size > 0 {
        if !stored {
          GiveBack(id);
          return -1;
        }
        CountUpdate(slots, id, Some(entry));
        if id == FirstFree(slots) {
          StoredInView(slots, entry);
        }
        slots := slots[id := Some(entry)];
      }
      if id >= max {
        max := id + 1;
      }
    }

    /** Free the slot just found when its entry cannot be allocated. */
    method GiveBack(handle: nat)
      requires Shape() && present && handle < |slots| && slots[handle].None? && used > Count(slots)
      modifies this`slots, this`used, this`present
      ensures Shape() && (present <==> used > 0) && used == old(used) - 1
      ensures View(slots) == old(View(slots)) && Top(slots) == old(Top(slots)) && Count(slots) == old(Count(slots))
    {
      assert slots[handle := None] == slots;
      CountFull(slots);
      var top := Free(handle);
    }

    /** Free a live handle and save the new maximum, as the owners of a table do. */
    method Release(handle: nat)
      requires Valid() && handle < |slots| && slots[handle].Some?
      modifies this
      ensures Valid()
      ensures handle < old(|View(slots)|) && View(slots) == Cleared(old(View(slots)), handle)
    {
      CountUpdate(slots, handle, None);
      ClearedInView(slots, handle);
      ghost var cleared := slots[handle := None];
      CountFull(cleared);
      max := Free(handle);
      assert !present ==> View(cleared) == [];
    }

    /**
     * Free every live entry in turn, reading each slot below the old maximum. The table pointer is
     * released with the last live entry, and that is the last slot read.
     */
    method ReleaseAll()
      requires Valid()
      modifies this
      ensures Valid() && slots == [] && !present
    {
      var n := max;
      var row := 0;
      while row < n
        invariant 0 <= row <= n
        invariant row < n ==> present && n <= |slots| && slots[n - 1].Some?
        invariant Shape() && used == Count(slots) && (present ==> used > 0)
        invariant forall i :: 0 <= i < |slots| && (i < row || i >= n) ==> slots[i].None?
      {
        if slots[row].Some? {
          CountUpdate(slots, row, None);
          var top := Free(row);
        }
        row := row + 1;
      }
      CountFull(slots);
      slots, used, present, max := [], 0, false, 0;
    }
  }

  /** Two entries of size 0 get the same handle, although both are counted. */
  method ZeroSizeReusesHandle(x: int, y: int) returns (first: int, second: int)
    ensures first == second == 0
  {
    var list := new HandleList<int>();
    first := list.AllocEntry(0, x, true);
    second := list.AllocEntry(0, y, true);
  }
}
