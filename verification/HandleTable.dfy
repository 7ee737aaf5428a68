/**
 * The table of emulated file descriptors: a fixed array of records, and a hint
 * for where the search for a free one may start.
 */
module HandleTable {

  const WIN32_FH_BASE := 2048
  const WIN32_MAX_FHS := 2048

  datatype Class = NoClass | Class(id: nat)
  datatype Record = Record(clazz: Class, used: bool, eof: bool, name: string)

  const FREE := Record(NoClass, false, false, "")

  /** The lowest free place, or the length of the table. */
  function LowestFree(table: seq<Record>): (k: nat)
    ensures k <= |table|
  {
    if table == [] || table[0].clazz.NoClass? then 0 else 1 + LowestFree(table[1..])
  }

  ghost predicate IsLowestFree(table: seq<Record>, k: nat) {
    && k <= |table| && (k < |table| ==> table[k].clazz.NoClass?)
    && forall i :: 0 <= i < k ==> !table[i].clazz.NoClass?
  }

  lemma {:induction false} LowestFreeMeans(table: seq<Record>)
    ensures IsLowestFree(table, LowestFree(table))
  {
    if table != [] && !table[0].clazz.NoClass? {
      LowestFreeMeans(table[1..]);
      forall i | 0 < i < LowestFree(table)
        ensures !table[i].clazz.NoClass?
      {
        assert table[i] == table[1..][i - 1];
      }
    }
  }

  lemma LowestFreeUnique(table: seq<Record>, k: nat)
    requires IsLowestFree(table, k)
    ensures k == LowestFree(table)
  {
    LowestFreeMeans(table);
  }

  class Handles {
    const records: array<Record>    // _win32_fhs
    var next: nat                   // _win32_fh_next

    /** Every place below the hint is in use. */
    ghost predicate Valid()
      reads this, records
    {
      && records.Length == WIN32_MAX_FHS && next <= WIN32_MAX_FHS
      && (forall i :: 0 <= i < next ==> !records[i].clazz.NoClass?)
      && (forall i :: 0 <= i < records.Length ==> (records[i].used && records[i].clazz.Class?) || records[i] == FREE)
    }

    constructor ()
      ensures Valid() && fresh(records) && forall i :: 0 <= i < records.Length ==> records[i] == FREE
    {
      records := new Record[WIN32_MAX_FHS](_ => FREE);
      next := 0;
    }

    /** _fh_alloc: the lowest free place of the whole table, or -1 when there is none. */
    method Alloc(clazz: Class) returns (f: int)
      requires Valid() && clazz.Class?
      modifies this, records
      ensures Valid()
      ensures var k := LowestFree(old(records[..]));
        if k == WIN32_MAX_FHS then f == -1 && records[..] == old(records[..])
        else f == k && records[..] == old(records[..])[k := Record(clazz, true, false, "")]
      ensures f == -1 <==> forall i :: 0 <= i < records.Length ==> old(records[i].used)
    {
      ghost var table := records[..];
      LowestFreeMeans(table);
      for i := next to WIN32_MAX_FHS
        invariant Valid() && records[..] == table && forall j :: 0 <= j < i ==> !records[j].clazz.NoClass?
      {
        if records[i].clazz.NoClass? {
          LowestFreeUnique(table, i);
          next := i + 1;
          records[i] := Record(clazz, true, false, "");
          return i;
        }
      }
      LowestFreeUnique(table, WIN32_MAX_FHS);
      return -1;
    }

    /** _fh_close of a record of the table. */
    method Close(f: nat)
      requires Valid() && f < WIN32_MAX_FHS
      modifies this, records
      ensures Valid() && records[..] == old(records[..])[f := FREE]
    {
      if next > f {
        next := f;
      }
      if records[f].used {
        records[f] := FREE;
      }
    }

    /** _fh_from_int: the record a descriptor stands for, or -1. */
    function FromInt(fd: int): int
      reads this, records
      requires Valid()
    {
      var k := fd - WIN32_FH_BASE;
      if k < 0 || k >= WIN32_MAX_FHS then -1 else if !records[k].used then -1 else k
    }

    /** _fh_to_int */
    function ToInt(f: int): int
      reads this, records
      requires Valid()
    {
      if 0 <= f < WIN32_MAX_FHS && records[f].used then f + WIN32_FH_BASE else -1
    }

    /** The descriptor of every record in use leads back to it. */
    lemma RecordRoundTrip(f: int)
      requires Valid()
      ensures FromInt(ToInt(f)) == f <==> f == -1 || (0 <= f < WIN32_MAX_FHS && records[f].used)
    {}

    /** Every descriptor that is accepted is the descriptor of the record it leads to, and of no other. */
    lemma DescriptorRoundTrip(fd: int)
      requires Valid()
      ensures FromInt(fd) != -1 ==> ToInt(FromInt(fd)) == fd
      ensures FromInt(fd) == -1 <==> forall f :: 0 <= f < WIN32_MAX_FHS && records[f].used ==> ToInt(f) != fd
    {
      var k := fd - WIN32_FH_BASE;
      if FromInt(fd) != -1 {
        assert ToInt(k) == fd;
      }
    }

    /**
     * A new descriptor, which led nowhere before, leads to its record until that is closed and
     * to none afterwards; no other descriptor is affected. When the table is full there is none.
     */
    method OpenAndClose(clazz: Class) returns (fd: int, inUse: int, after: int)
      requires Valid() && clazz.Class?
      modifies this, records
      ensures Valid() && old(FromInt(fd)) == -1 && after == -1
      ensures var k := LowestFree(old(records[..])); inUse == if k < WIN32_MAX_FHS then k else -1
      ensures forall other :: FromInt(other) == old(FromInt(other))
    {
      LowestFreeMeans(records[..]);
      var f := Alloc(clazz);
      assert f != -1 ==> records[f] == records[..][f];
      fd := ToInt(f);
      inUse := FromInt(fd);
      if f != -1 {
        Close(f);
      }
      assert forall i :: 0 <= i < WIN32_MAX_FHS ==> records[i].used == old(records[..])[i].used by {
        assert forall i :: 0 <= i < WIN32_MAX_FHS && i != f ==> records[..][i] == old(records[..])[i];
      }
      after := FromInt(fd);
    }
  }

  // Any run of allocations and closes, by the hint and without it.

  datatype Op = Open(clazz: Class) | Shut(f: nat)

  /** The reference: always take the lowest free place. */
  function Apply(table: seq<Record>, op: Op): seq<Record>
    requires op.Shut? ==> op.f < |table|
  {
    match op
    case Open(clazz) =>
      var k := LowestFree(table);
      if k < |table| then table[k := Record(clazz, true, false, "")] else table
    case Shut(f) => table[f := FREE]
  }

  function Run(table: seq<Record>, ops: seq<Op>): (r: seq<Record>)
    requires forall i :: 0 <= i < |ops| ==> (if ops[i].Shut? then ops[i].f < |table| else ops[i].clazz.Class?)
    ensures |r| == |table|
  {
    if ops == [] then table else Apply(Run(table, ops[..|ops| - 1]), ops[|ops| - 1])
  }

  /** The table with the hint goes through the same states as the reference. */
  method RunAll(h: Handles, ops: seq<Op>)
    requires h.Valid()
    requires forall i :: 0 <= i < |ops| ==> (if ops[i].Shut? then ops[i].f < WIN32_MAX_FHS else ops[i].clazz.Class?)
    modifies h, h.records
    ensures h.Valid() && h.records[..] == Run(old(h.records[..]), ops)
  {
    ghost var table := h.records[..];
    for i := 0 to |ops|
      invariant h.Valid() && h.records[..] == Run(table, ops[..i])
    {
      assert ops[..i + 1][..i] == ops[..i];
      match ops[i] {
        case Open(clazz) => var _ := h.Alloc(clazz);
        case Shut(f) => h.Close(f);
      }
    }
    assert ops[..|ops|] == ops;
  }
}
