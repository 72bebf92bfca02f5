// Snapshots of the jobs journal as windows that share its append-only storage.
module SharedRecords {
  // A window over shared storage: `len` items are visible, and up to `cap` an append writes in place.
  datatype Slice<T(0)> = Slice(cells: array<T>, len: nat, cap: nat)

  predicate Fits<T(0)>(s: Slice<T>) {
    s.len <= s.cap <= s.cells.Length
  }

  function Items<T(0)>(s: Slice<T>): seq<T>
    requires Fits(s)
    reads s.cells
  {
    s.cells[..s.len]
  }

  // Appends in place while there is room, and moves to storage of its own otherwise.
  method Append<T(0)>(s: Slice<T>, x: T) returns (r: Slice<T>)
    requires Fits(s)
    modifies s.cells
    ensures Fits(r) && r.len == s.len + 1 && Items(r) == old(Items(s)) + [x]
    ensures s.len < s.cap ==> r == s.(len := s.len + 1) && forall i :: 0 <= i < s.cells.Length && i != s.len ==> s.cells[i] == old(s.cells[i])
    ensures s.len == s.cap ==> fresh(r.cells) && forall i :: 0 <= i < s.cells.Length ==> s.cells[i] == old(s.cells[i])
  {
    if s.len < s.cap {
      s.cells[s.len] := x;
      r := s.(len := s.len + 1);
      return;
    }
    var bigger := new T[2 * s.cap + 1];
    for i := 0 to s.len
      invariant forall k :: 0 <= k < i ==> bigger[k] == s.cells[k]
      invariant forall k :: 0 <= k < s.cells.Length ==> s.cells[k] == old(s.cells[k])
    {
      bigger[i] := s.cells[i];
    }
    bigger[s.len] := x;
    r := Slice(bigger, s.len + 1, bigger.Length);
  }

  // The journal's records and the windows it handed out, with what each showed when it was taken.
  class RecordList<T(0)> {
    var records: Slice<T>
    ghost var storage: set<array<T>>
    ghost var handed: seq<Slice<T>>
    ghost var shown: seq<seq<T>>

    ghost predicate Valid()
      reads this, storage
    {
      && Fits(records) && records.cells in storage
      && |handed| == |shown|
      && (forall i :: 0 <= i < |handed| ==> Keeps(handed[i], shown[i]))
    }

    // A window has no room of its own, and still shows what it showed.
    ghost predicate Keeps(w: Slice<T>, items: seq<T>)
      reads this, storage
    {
      Fits(w) && w.cells in storage && w.cap == w.len && Items(w) == items
      && (w.cells == records.cells ==> w.len <= records.len)
    }

    constructor ()
      ensures Valid() && Items(records) == [] && handed == []
      ensures fresh(storage)
    {
      var cells := new T[0];
      records := Slice(cells, 0, 0);
      storage, handed, shown := {cells}, [], [];
    }

    // A new record never shows in, and never disturbs, a window handed out before.
    method Add(x: T)
      requires Valid()
      modifies this, storage
      ensures Valid() && fresh(storage - old(storage))
      ensures Items(records) == old(Items(records)) + [x]
      ensures handed == old(handed) && shown == old(shown)
      ensures forall i :: 0 <= i < |handed| ==> Items(handed[i]) == shown[i]
    {
      ghost var before := records;
      records := Append(records, x);
      storage := storage + {records.cells};
      forall i | 0 <= i < |handed| ensures Keeps(handed[i], shown[i]) {
        assert old(Keeps(handed[i], shown[i]));
        var w := handed[i];
        forall k | 0 <= k < w.len ensures w.cells[k] == old(w.cells[k]) {
        }
        assert Items(w) == old(Items(w));
      }
    }

    method Snapshot() returns (w: Slice<T>)
      requires Valid()
      modifies this`handed, this`shown
      ensures Valid() && Fits(w) && Items(w) == Items(records)
      ensures handed == old(handed) + [w] && shown == old(shown) + [Items(w)]
    {
      w := records.(cap := records.len);
      handed := handed + [w];
      shown := shown + [Items(w)];
      forall i | 0 <= i < |handed| ensures Keeps(handed[i], shown[i]) {
        if i < |old(handed)| {
          assert old(Keeps(handed[i], shown[i]));
        }
      }
    }

    // What a holder appends to its window lands in storage of the holder's own.
    method AppendToWindow(w: Slice<T>, x: T, ghost i: nat) returns (r: Slice<T>)
      requires Valid() && i < |handed| && w == handed[i]
      modifies storage
      ensures Valid() && Fits(r) && fresh(r.cells)
      ensures Items(r) == shown[i] + [x]
      ensures Items(records) == old(Items(records))
    {
      assert Keeps(handed[i], shown[i]);
      r := Append(w, x);
      forall k | 0 <= k < |handed| ensures Keeps(handed[k], shown[k]) {
        assert old(Keeps(handed[k], shown[k]));
        assert handed[k].cells != handed[i].cells ==> Items(handed[k]) == old(Items(handed[k]));
        assert handed[k].cells == handed[i].cells ==> Items(handed[k]) == old(Items(handed[k]));
      }
    }
  }
}
