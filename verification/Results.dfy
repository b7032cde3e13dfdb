/** The result store: the latest record of each request. */
module Results {
  import opened Options

  datatype Status = Pending | Processing | Completed | Failed

  datatype Failure =
    | SchedulingDeferred
    | BreakerOpen
    | Expired
    | InferenceError(message: string)
    | Reconciled

  datatype Record = Record(
    requestId: string,
    status: Status,
    acceptedAt: Option<real>,  // None: the stored text does not parse as a time
    completedAt: Option<real>,
    modelName: Option<string>,
    result: Option<string>,
    error: Option<Failure>)

  predicate Terminal(s: Status) {
    s == Completed || s == Failed
  }

  /** An insertion-ordered dict from request ids to records. */
  datatype Store = Store(order: seq<string>, records: map<string, Record>) {
    ghost predicate Valid() {
      && (forall id :: id in order <==> id in records)
      && (forall i, j :: 0 <= i < j < |order| ==> order[i] != order[j])
      && (forall id :: id in records ==> records[id].requestId == id)
    }

    function Put(r: Record): Store {
      Store(if r.requestId in records then order else order + [r.requestId], records[r.requestId := r])
    }

    function Lookup(requestId: string): Option<Record> {
      if requestId in records then Some(records[requestId]) else None
    }

    function ScanByStatus(status: Status): seq<Record>
      requires Valid()
    {
      Scan(order, records, status)
    }

    function CountOf(status: Status): nat
      requires Valid()
    {
      |ScanByStatus(status)|
    }
  }

  const EMPTY := Store([], map[])

  function Scan(order: seq<string>, records: map<string, Record>, status: Status): seq<Record>
    requires forall id :: id in order ==> id in records
  {
    if order == [] then []
    else
      var r := records[order[0]];
      (if r.status == status then [r] else []) + Scan(order[1..], records, status)
  }

  class InMemoryResultStore {
    var store: Store

    constructor ()
      ensures store == EMPTY && store.Valid()
    {
      store := EMPTY;
    }

    method Put(result: Record)
      requires store.Valid()
      modifies this
      ensures store == old(store).Put(result) && store.Valid()
    {
      PutValid(store, result);
      store := store.Put(result);
    }

    function Get(requestId: string): (r: Option<Record>)
      reads this
      ensures r == if requestId in store.records then Some(store.records[requestId]) else None
    {
      store.Lookup(requestId)
    }

    /** The records with the given status, in the order in which their requests first appeared. */
    method ScanByStatus(status: Status) returns (found: seq<Record>)
      requires store.Valid()
      ensures found == store.ScanByStatus(status)
    {
      found := [];
      for i := 0 to |store.order|
        invariant found == Scan(store.order[..i], store.records, status)
      {
        assert store.order[..i + 1] == store.order[..i] + [store.order[i]];
        ScanSnoc(store.order[..i], store.order[i], store.records, status);
        var r := store.records[store.order[i]];
        found := found + if r.status == status then [r] else [];
      }
      assert store.order[..|store.order|] == store.order;
    }
  }

  /** A fresh store after some writes. */
  function PutAll(rs: seq<Record>): Store {
    if rs == [] then EMPTY else PutAll(rs[..|rs| - 1]).Put(rs[|rs| - 1])
  }

  /** The last of some records for a request. */
  function LastFor(rs: seq<Record>, requestId: string): Option<Record> {
    if rs == [] then None
    else if rs[|rs| - 1].requestId == requestId then Some(rs[|rs| - 1])
    else LastFor(rs[..|rs| - 1], requestId)
  }

  /** What `Get` finds after any writes is the last record written for the request. */
  lemma {:induction false} GetIsLastWrite(rs: seq<Record>, requestId: string)
    ensures PutAll(rs).Valid() && PutAll(rs).Lookup(requestId) == LastFor(rs, requestId)
  {
    if rs != [] {
      GetIsLastWrite(rs[..|rs| - 1], requestId);
      PutValid(PutAll(rs[..|rs| - 1]), rs[|rs| - 1]);
    }
  }

  lemma PutValid(s: Store, r: Record)
    requires s.Valid()
    ensures s.Put(r).Valid()
  {
  }

  lemma {:induction false} ScanSnoc(order: seq<string>, id: string, records: map<string, Record>, status: Status)
    requires forall x :: x in order + [id] ==> x in records
    ensures forall x :: x in order ==> x in records
    ensures id in records
    ensures Scan(order + [id], records, status)
         == Scan(order, records, status) + if records[id].status == status then [records[id]] else []
  {
    assert forall x :: x in order ==> x in order + [id];
    assert id in order + [id];
    if order == [] {
      assert order + [id] == [id] && [id][1..] == [];
    } else {
      assert (order + [id])[1..] == order[1..] + [id];
      ScanSnoc(order[1..], id, records, status);
    }
  }

  lemma {:induction false} ScanElsewhere(order: seq<string>, records: map<string, Record>, r: Record, status: Status)
    requires r.requestId !in order && forall id :: id in order ==> id in records
    ensures Scan(order, records[r.requestId := r], status) == Scan(order, records, status)
  {
    if order != [] {
      ScanElsewhere(order[1..], records, r, status);
    }
  }

  function One(b: bool): nat {
    if b then 1 else 0
  }

  lemma {:induction false} ScanUpdate(order: seq<string>, records: map<string, Record>, r: Record, status: Status)
    requires r.requestId in order && forall id :: id in order ==> id in records
    requires forall i, j :: 0 <= i < j < |order| ==> order[i] != order[j]
    ensures |Scan(order, records[r.requestId := r], status)| + One(records[r.requestId].status == status)
         == |Scan(order, records, status)| + One(r.status == status)
  {
    if order[0] == r.requestId {
      ScanElsewhere(order[1..], records, r, status);
    } else {
      ScanUpdate(order[1..], records, r, status);
    }
  }

  /** One write moves one record: it leaves its old status count and joins its new one. */
  lemma PutMovesOneRecord(s: Store, r: Record, status: Status)
    requires s.Valid()
    ensures s.Put(r).Valid()
    ensures s.Put(r).CountOf(status) + One(r.requestId in s.records && s.records[r.requestId].status == status)
         == s.CountOf(status) + One(r.status == status)
  {
    PutValid(s, r);
    if r.requestId in s.records {
      ScanUpdate(s.order, s.records, r, status);
    } else {
      ScanSnoc(s.order, r.requestId, s.records[r.requestId := r], status);
      ScanElsewhere(s.order, s.records, r, status);
    }
  }

  /** A scan lists exactly the records with the status, each once. */
  lemma {:induction false} ScanFinds(order: seq<string>, records: map<string, Record>, status: Status)
    requires forall id :: id in order ==> id in records && records[id].requestId == id
    requires forall i, j :: 0 <= i < j < |order| ==> order[i] != order[j]
    ensures forall r :: r in Scan(order, records, status) <==>
              r.requestId in order && records[r.requestId] == r && r.status == status
    ensures forall i, j :: 0 <= i < j < |Scan(order, records, status)| ==>
              Scan(order, records, status)[i].requestId != Scan(order, records, status)[j].requestId
  {
    if order != [] {
      ScanFinds(order[1..], records, status);
      assert order == [order[0]] + order[1..];
      assert order[0] !in order[1..];
      var tail := Scan(order[1..], records, status);
      assert forall i :: 0 <= i < |tail| ==> tail[i] in tail;
    }
  }
}
