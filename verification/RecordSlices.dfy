/** The records of one status check as Go keeps them: a slice over a backing array that appends may share with slices
    handed out earlier (controllers/statuscheck/manager.go). */
module RecordSlices {
  import opened StatusRecords

  /** A Go slice: a view of `len` elements of a backing array; its capacity reaches to the end of that array. */
  datatype Slice = Slice(backing: array<Record>, off: nat, len: nat)

  predicate InBounds(s: Slice) {
    s.off + s.len <= s.backing.Length
  }

  function Contents(s: Slice): seq<Record>
    requires InBounds(s)
    reads s.backing
  {
    s.backing[s.off..s.off + s.len]
  }

  /** Go's `append`: in place when the backing array has room, otherwise into a new, larger array. */
  method GoAppend(s: Slice, record: Record) returns (r: Slice)
    requires InBounds(s)
    modifies s.backing
    ensures InBounds(r) && r.len == s.len + 1
    ensures Contents(r) == old(Contents(s)) + [record]
    ensures r.backing == s.backing ==> r.off == s.off && s.off + s.len < s.backing.Length
    ensures r.backing != s.backing ==> fresh(r.backing) && unchanged(s.backing)
    ensures forall i :: 0 <= i < s.backing.Length && i != s.off + s.len ==> s.backing[i] == old(s.backing[i])
  {
    if s.off + s.len < s.backing.Length {
      s.backing[s.off + s.len] := record;
      r := Slice(s.backing, s.off, s.len + 1);
    } else {
      var spare: nat :| true;
      var bigger := new Record[s.len + 1 + spare](_ => record);
      for i := 0 to s.len
        invariant forall j :: 0 <= j < i ==> bigger[j] == s.backing[s.off + j]
        invariant i <= s.len && bigger[s.len] == record
        invariant unchanged(s.backing)
      {
        bigger[i] := s.backing[s.off + i];
      }
      r := Slice(bigger, 0, s.len + 1);
    }
  }

  function End(s: Slice): nat {
    s.off + s.len
  }

  /** One entry of the result cache. */
  class Entry {
    var records: Slice
    const limit: nat

    ghost predicate Valid()
      reads this
    {
      InBounds(records)
    }

    /** The initial records come from an object read for this call, so nothing else appends to their array. */
    constructor (initial: Slice, limit: nat)
      requires InBounds(initial)
      ensures Valid() && this.limit == limit && records.backing == initial.backing && End(records) == End(initial)
      ensures Contents(records) == LimitRecords(Contents(initial), limit)
    {
      this.limit := limit;
      records := Limit(initial, limit);
    }

    /** Nothing up to the end of the current records is written: either the new record goes right behind it in the same
        backing array, or the records move to a new array. */
    method Append(record: Record)
      requires Valid()
      modifies this`records, records.backing
      ensures Valid()
      ensures Contents(records) == LimitRecords(old(Contents(records)) + [record], limit)
      ensures forall i :: 0 <= i < old(End(records)) ==> old(records.backing)[i] == old(records.backing[i])
      ensures if records.backing == old(records.backing) then End(records) == old(End(records)) + 1
        else fresh(records.backing)
    {
      var longer := GoAppend(records, record);
      records := Limit(longer, limit);
    }
  }

  /** Trimming from the front moves the start of the view and keeps its end. */
  function Limit(s: Slice, limit: nat): (r: Slice)
    requires InBounds(s)
    reads s.backing
    ensures InBounds(r) && r.backing == s.backing && End(r) == End(s)
    ensures Contents(r) == LimitRecords(Contents(s), limit)
  {
    var drop := if s.len < limit then 0 else s.len - limit;
    Slice(s.backing, s.off + drop, s.len - drop)
  }

  /** A slice that was handed out: it lies in another array, or does not reach beyond the current records. */
  predicate Behind(s: Slice, current: Slice) {
    InBounds(s) && (s.backing == current.backing ==> End(s) <= End(current))
  }

  /** Snapshot isolation: a slice handed out by `get` shows the same records after any number of appends, even when
      they reuse its backing array after trimming from the front. */
  method SnapshotSurvives(e: Entry, s: Slice, more: seq<Record>)
    requires e.Valid() && Behind(s, e.records)
    modifies e`records, e.records.backing
    ensures e.Valid() && Behind(s, e.records)
    ensures Contents(s) == old(Contents(s))
    ensures more != [] ==> Contents(e.records) == LimitRecords(old(Contents(e.records)) + more, e.limit)
  {
    ghost var start, shown := Contents(e.records), Contents(s);
    for n := 0 to |more|
      invariant e.Valid() && Behind(s, e.records) && Contents(s) == shown
      invariant e.records.backing == old(e.records.backing) || fresh(e.records.backing)
      invariant n == 0 ==> Contents(e.records) == start
      invariant n > 0 ==> Contents(e.records) == LimitRecords(start + more[..n], e.limit)
    {
      e.Append(more[n]);
      NextWindow(start, more, n, e.limit);
    }
    assert more[..|more|] == more;
  }

  lemma NextWindow(start: seq<Record>, more: seq<Record>, n: nat, limit: nat)
    requires n < |more|
    ensures LimitRecords(LimitRecords(start + more[..n], limit) + [more[n]], limit)
      == LimitRecords(start + more[..n + 1], limit)
    ensures n == 0 ==> LimitRecords(start + [more[n]], limit) == LimitRecords(start + more[..n + 1], limit)
  {
    LimitOnceOrTwice(start + more[..n], [more[n]], limit);
    assert start + more[..n] + [more[n]] == start + more[..n + 1];
    assert n == 0 ==> start + [more[n]] == start + more[..n + 1];
  }
}
