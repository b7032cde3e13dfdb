/** The in-process priority queue: three lanes that together act as one list. */
module PriorityQueue {
  import opened Options
  import opened Sorting

  datatype Lane = High | Normal | Low {
    function Rank(): nat {
      match this
      case High => 0
      case Normal => 1
      case Low => 2
    }
  }

  function PriorityToLane(priority: int): Lane {
    if priority <= 2 then High else if priority <= 7 then Normal else Low
  }

  datatype Lanes<T> = Lanes(high: seq<T>, normal: seq<T>, low: seq<T>) {
    function Of(lane: Lane): seq<T> {
      match lane
      case High => high
      case Normal => normal
      case Low => low
    }

    function With(lane: Lane, xs: seq<T>): Lanes<T> {
      match lane
      case High => this.(high := xs)
      case Normal => this.(normal := xs)
      case Low => this.(low := xs)
    }

    function Put(lane: Lane, x: T): Lanes<T> {
      With(lane, Of(lane) + [x])
    }

    function Size(): nat {
      |high| + |normal| + |low|
    }
  }

  // ----- the single list the lanes implement -----

  datatype Entry<T> = Entry(lane: Lane, payload: T)

  predicate LaneLe<T>(a: Entry<T>, b: Entry<T>) {
    a.lane.Rank() <= b.lane.Rank()
  }

  function Payloads<T>(es: seq<Entry<T>>): seq<T> {
    seq(|es|, i requires 0 <= i < |es| => es[i].payload)
  }

  /** The entries of one lane, in arrival order. */
  function Column<T>(es: seq<Entry<T>>, lane: Lane): seq<Entry<T>> {
    if es == [] then []
    else (if es[0].lane == lane then [es[0]] else []) + Column(es[1..], lane)
  }

  /** The order in which the queue hands out an arrival list: its stable sort by lane. */
  function DrainOrder<T>(es: seq<Entry<T>>): seq<Entry<T>> {
    Sort(LaneLe, es)
  }

  function RemoveFirst<T>(es: seq<Entry<T>>, lane: Lane): seq<Entry<T>> {
    if es == [] then []
    else if es[0].lane == lane then es[1..]
    else [es[0]] + RemoveFirst(es[1..], lane)
  }

  lemma {:induction false} ColumnSnoc<T>(es: seq<Entry<T>>, e: Entry<T>, lane: Lane)
    ensures Column(es + [e], lane) == Column(es, lane) + if e.lane == lane then [e] else []
  {
    if es == [] {
      assert es + [e] == [e] && [e][1..] == [];
    } else {
      ColumnSnoc(es[1..], e, lane);
      assert (es + [e])[1..] == es[1..] + [e];
      ConcatAssociative(if es[0].lane == lane then [es[0]] else [], Column(es[1..], lane),
                        if e.lane == lane then [e] else []);
    }
  }

  lemma {:induction false} ColumnIsUniform<T>(es: seq<Entry<T>>, lane: Lane)
    ensures forall e :: e in Column(es, lane) ==> e.lane == lane
  {
    if es != [] {
      ColumnIsUniform(es[1..], lane);
    }
  }

  lemma {:induction false} InsertSkips<T(!new)>(le: (T, T) -> bool, x: T, a: seq<T>, b: seq<T>)
    requires (forall y :: y in a ==> !le(x, y)) && (b == [] || le(x, b[0]))
    ensures Insert(le, x, a + b) == a + ([x] + b)
  {
    if a == [] {
      assert a + b == b;
    } else {
      InsertSkips(le, x, a[1..], b);
      assert (a + b)[1..] == a[1..] + b;
      assert a + ([x] + b) == [a[0]] + (a[1..] + ([x] + b));
    }
  }

  ghost predicate Uniform<T>(es: seq<Entry<T>>, lane: Lane) {
    forall e :: e in es ==> e.lane == lane
  }

  lemma {:induction false} InsertIntoLanes<T(!new)>(x: Entry<T>, h: seq<Entry<T>>, n: seq<Entry<T>>, l: seq<Entry<T>>)
    requires Uniform(h, High) && Uniform(n, Normal) && Uniform(l, Low)
    ensures Insert(LaneLe, x, h + (n + l))
         == match x.lane
            case High => ([x] + h) + (n + l)
            case Normal => h + (([x] + n) + l)
            case Low => h + (n + ([x] + l))
  {
    match x.lane {
      case High =>
        assert h + (n + l) == [] || LaneLe(x, (h + (n + l))[0]);
        InsertSkips(LaneLe, x, [], h + (n + l));
        assert [] + (h + (n + l)) == h + (n + l);
        ConcatAssociative([x], h, n + l);
      case Normal =>
        InsertSkips(LaneLe, x, h, n + l);
        ConcatAssociative([x], n, l);
      case Low =>
        ConcatAssociative(h, n, l);
        InsertSkips(LaneLe, x, h + n, l);
        ConcatAssociative(h, n, [x] + l);
    }
  }

  lemma {:induction false} ColumnHead<T>(es: seq<Entry<T>>, lane: Lane)
    requires es != []
    ensures Column(es, lane) == if es[0].lane == lane then [es[0]] + Column(es[1..], lane) else Column(es[1..], lane)
  {
  }

  /** The drain order is the three lanes, one after the other. */
  lemma {:induction false} DrainOrderIsLanes<T(!new)>(es: seq<Entry<T>>)
    ensures DrainOrder(es) == Column(es, High) + (Column(es, Normal) + Column(es, Low))
  {
    if es != [] {
      var x, rest := es[0], es[1..];
      DrainOrderIsLanes(rest);
      ColumnIsUniform(rest, High);
      ColumnIsUniform(rest, Normal);
      ColumnIsUniform(rest, Low);
      InsertIntoLanes(x, Column(rest, High), Column(rest, Normal), Column(rest, Low));
      ColumnHead(es, High);
      ColumnHead(es, Normal);
      ColumnHead(es, Low);
    }
  }

  /** The arrival list after some puts, each with its priority. */
  function Arrived<T>(puts: seq<(int, T)>): seq<Entry<T>> {
    if puts == [] then [] else [Entry(PriorityToLane(puts[0].0), puts[0].1)] + Arrived(puts[1..])
  }

  /** What was put with the given priorities, in order of arrival. */
  function Those<T>(puts: seq<(int, T)>, priorities: int -> bool): seq<T> {
    if puts == [] then []
    else (if priorities(puts[0].0) then [puts[0].1] else []) + Those(puts[1..], priorities)
  }

  lemma {:induction false} ColumnByPriority<T>(puts: seq<(int, T)>, lane: Lane, priorities: int -> bool)
    requires forall p :: priorities(p) <==>
                           match lane case High => p <= 2 case Normal => 3 <= p <= 7 case Low => 8 <= p
    ensures Payloads(Column(Arrived(puts), lane)) == Those(puts, priorities)
  {
    if puts != [] {
      ColumnByPriority(puts[1..], lane, priorities);
      var first, rest := Arrived(puts)[0], Arrived(puts[1..]);
      assert Arrived(puts)[1..] == rest;
      ColumnHead(Arrived(puts), lane);
      if first.lane == lane {
        PayloadsConcat([first], Column(rest, lane));
        assert Payloads([first]) == [puts[0].1];
      }
    }
  }

  /** What goes first: the priorities up to 2, then 3 to 7, then 8 and above, each in order of arrival. */
  lemma {:induction false} ServedByPriority<T(!new)>(puts: seq<(int, T)>)
    ensures Payloads(DrainOrder(Arrived(puts)))
         == Those(puts, p => p <= 2) + (Those(puts, p => 3 <= p <= 7) + Those(puts, p => 8 <= p))
  {
    var es := Arrived(puts);
    DrainOrderIsLanes(es);
    ColumnByPriority(puts, High, p => p <= 2);
    ColumnByPriority(puts, Normal, p => 3 <= p <= 7);
    ColumnByPriority(puts, Low, p => 8 <= p);
    PayloadsConcat(Column(es, Normal), Column(es, Low));
    PayloadsConcat(Column(es, High), Column(es, Normal) + Column(es, Low));
  }

  lemma Heads<T>(h: seq<T>, n: seq<T>, l: seq<T>)
    requires h + (n + l) != []
    ensures var xs := h + (n + l);
            if h != [] then xs[0] == h[0] && xs[1..] == h[1..] + (n + l)
            else if n != [] then xs[0] == n[0] && xs[1..] == h + (n[1..] + l)
            else xs[0] == l[0] && xs[1..] == h + (n + l[1..])
  {
  }

  lemma {:induction false} ColumnAfterRemoval<T>(es: seq<Entry<T>>, lane: Lane, other: Lane)
    requires Column(es, lane) != []
    ensures Column(RemoveFirst(es, lane), other) == if other == lane then Column(es, lane)[1..] else Column(es, other)
    ensures |RemoveFirst(es, lane)| == |es| - 1
  {
    if es[0].lane != lane {
      ColumnAfterRemoval(es[1..], lane, other);
      assert ([es[0]] + RemoveFirst(es[1..], lane))[1..] == RemoveFirst(es[1..], lane);
    }
  }

  /** The lane `get` serves: the first that is not empty. */
  predicate Serves<T>(es: seq<Entry<T>>, lane: Lane) {
    && Column(es, lane) != []
    && (lane != High ==> Column(es, High) == [])
    && (lane == Low ==> Column(es, Normal) == [])
  }

  lemma {:induction false} FirstOut<T(!new)>(es: seq<Entry<T>>, lane: Lane)
    requires Serves(es, lane)
    ensures DrainOrder(es) != [] && DrainOrder(es)[0] == Column(es, lane)[0] && DrainOrder(es)[0].lane == lane
    ensures DrainOrder(RemoveFirst(es, lane)) == DrainOrder(es)[1..]
    ensures |RemoveFirst(es, lane)| == |es| - 1
  {
    DrainOrderIsLanes(es);
    Heads(Column(es, High), Column(es, Normal), Column(es, Low));
    ColumnIsUniform(es, lane);
    assert Column(es, lane)[0] in Column(es, lane);
    DrainOrderIsLanes(RemoveFirst(es, lane));
    ColumnAfterRemoval(es, lane, High);
    ColumnAfterRemoval(es, lane, Normal);
    ColumnAfterRemoval(es, lane, Low);
  }

  /** The lanes are the arrival list, split by lane. */
  ghost predicate Implements<T>(lanes: Lanes<T>, es: seq<Entry<T>>) {
    forall lane: Lane :: lanes.Of(lane) == Payloads(Column(es, lane))
  }

  lemma WithOf<T>(lanes: Lanes<T>, lane: Lane, xs: seq<T>, other: Lane)
    ensures lanes.With(lane, xs).Of(other) == if other == lane then xs else lanes.Of(other)
  {
  }

  lemma PayloadsParts<T>(es: seq<Entry<T>>, e: Entry<T>)
    ensures Payloads(es + [e]) == Payloads(es) + [e.payload] && Payloads(es + []) == Payloads(es)
    ensures es != [] ==> Payloads(es[1..]) == Payloads(es)[1..] && Payloads(es)[0] == es[0].payload
  {
  }

  lemma PutImplements<T>(lanes: Lanes<T>, es: seq<Entry<T>>, e: Entry<T>)
    requires Implements(lanes, es)
    ensures Implements(lanes.Put(e.lane, e.payload), es + [e])
  {
    forall lane: Lane ensures lanes.Put(e.lane, e.payload).Of(lane) == Payloads(Column(es + [e], lane)) {
      assert lanes.Of(lane) == Payloads(Column(es, lane));
      ColumnSnoc(es, e, lane);
      PayloadsParts(Column(es, lane), e);
      WithOf(lanes, e.lane, lanes.Of(e.lane) + [e.payload], lane);
    }
  }

  lemma {:induction false} TakeImplements<T>(lanes: Lanes<T>, es: seq<Entry<T>>, lane: Lane)
    requires Implements(lanes, es) && lanes.Of(lane) != []
    ensures Column(es, lane) != [] && lanes.Of(lane)[0] == Column(es, lane)[0].payload
    ensures Implements(lanes.With(lane, lanes.Of(lane)[1..]), RemoveFirst(es, lane))
  {
    assert lanes.Of(lane) == Payloads(Column(es, lane));
    forall l: Lane ensures lanes.With(lane, lanes.Of(lane)[1..]).Of(l) == Payloads(Column(RemoveFirst(es, lane), l)) {
      assert lanes.Of(l) == Payloads(Column(es, l));
      ColumnAfterRemoval(es, lane, l);
      PayloadsParts(Column(es, lane), Column(es, lane)[0]);
      WithOf(lanes, lane, lanes.Of(lane)[1..], l);
    }
  }

  /** `items` are the payloads at the head of `out`; the rest of `out` is still queued. */
  ghost predicate Drained<T>(out: seq<Entry<T>>, items: seq<T>, queued: seq<Entry<T>>) {
    && |items| + |queued| == |out|
    && items == Payloads(out[..|items|])
    && DrainOrder(queued) == out[|items|..]
  }

  lemma DrainedOneMore<T>(out: seq<Entry<T>>, items: seq<T>, queued: seq<Entry<T>>, queued': seq<Entry<T>>, x: T)
    requires Drained(out, items, queued) && DrainOrder(queued) != [] && x == DrainOrder(queued)[0].payload
    requires DrainOrder(queued') == DrainOrder(queued)[1..] && |queued'| == |queued| - 1
    ensures Drained(out, items + [x], queued')
  {
    Slices(out, |items|);
    PayloadsParts(out[..|items|], out[|items|]);
  }

  class PriorityInferenceQueue<T(!new)> {
    var lanes: Lanes<T>
    ghost var arrivals: seq<Entry<T>>

    /** The lanes are the arrival list, split by lane. */
    ghost predicate Valid()
      reads this
    {
      Implements(lanes, arrivals)
    }

    constructor ()
      ensures Valid() && arrivals == []
    {
      lanes := Lanes([], [], []);
      arrivals := [];
    }

    method Put(payload: T, priority: int)
      requires Valid()
      modifies this
      ensures Valid() && arrivals == old(arrivals) + [Entry(PriorityToLane(priority), payload)]
      ensures lanes == old(lanes).Put(PriorityToLane(priority), payload)
    {
      var lane := PriorityToLane(priority);
      PutImplements(lanes, arrivals, Entry(lane, payload));
      lanes := lanes.Put(lane, payload);
      arrivals := arrivals + [Entry(lane, payload)];
    }

    method GetNowait(lane: Lane) returns (item: Option<T>)
      requires Valid()
      modifies this
      ensures Valid()
      ensures item == if Column(old(arrivals), lane) == [] then None else Some(Column(old(arrivals), lane)[0].payload)
      ensures arrivals == if item == None then old(arrivals) else RemoveFirst(old(arrivals), lane)
      ensures item == None ==> lanes == old(lanes)
    {
      var xs := lanes.Of(lane);
      assert xs == Payloads(Column(arrivals, lane));
      if xs == [] {
        return None;
      }
      TakeImplements(lanes, arrivals, lane);
      lanes := lanes.With(lane, xs[1..]);
      arrivals := RemoveFirst(arrivals, lane);
      return Some(xs[0]);
    }

    /** With nobody else touching the queue, the blocking wait on the normal lane and the second
        look at the other two find nothing that the first three probes missed. */
    method Get() returns (item: Option<T>)
      requires Valid()
      modifies this
      ensures Valid()
      ensures item == None <==> old(arrivals) == []
      ensures item == None ==> arrivals == old(arrivals)
      ensures item.Some? ==>
                var out := DrainOrder(old(arrivals));
                && out != [] && item.value == out[0].payload
                && arrivals == RemoveFirst(old(arrivals), out[0].lane)
                && DrainOrder(arrivals) == out[1..] && |arrivals| == |old(arrivals)| - 1
    {
      LaneSizes(arrivals);
      ghost var before := arrivals;
      item := GetNowait(High);
      if item.Some? {
        FirstOut(before, High);
        return;
      }
      item := GetNowait(Normal);
      if item.Some? {
        FirstOut(before, Normal);
        return;
      }
      item := GetNowait(Low);
      if item.Some? {
        FirstOut(before, Low);
        return;
      }
      item := GetNowait(Normal);
      if item.Some? {
        return;
      }
      item := GetNowait(High);
      if item.Some? {
        return;
      }
      item := GetNowait(Low);
    }

    /** A batch is the head of the stable sort by lane. The size limit is only looked at after the
        first item, so a limit below one still yields one item. */
    method GetBatch(maxSize: int) returns (items: seq<T>)
      requires Valid()
      modifies this
      ensures Valid()
      ensures var want := if maxSize >= 1 then maxSize else 1;
              var n := if want <= |old(arrivals)| then want else |old(arrivals)|;
              && |DrainOrder(old(arrivals))| == |old(arrivals)|
              && items == Payloads(DrainOrder(old(arrivals))[..n])
              && DrainOrder(arrivals) == DrainOrder(old(arrivals))[n..]
    {
      ghost var out := DrainOrder(arrivals);
      SortPermutes(LaneLe, arrivals);
      items := [];
      ghost var before := arrivals;
      var first := Get();
      if first == None {
        return;
      }
      DrainedOneMore(out, items, before, arrivals, first.value);
      items := items + [first.value];
      while |items| < maxSize
        invariant Valid() && Drained(out, items, arrivals)
        invariant |items| == 1 || 1 <= |items| <= maxSize
        decreases maxSize - |items|
      {
        before := arrivals;
        var item := Get();
        if item == None {
          break;
        }
        DrainedOneMore(out, items, before, arrivals, item.value);
        items := items + [item.value];
      }
    }

    function Qsize(): (n: nat)
      reads this
      ensures Valid() ==> n == |arrivals|
    {
      LaneSizes(arrivals);
      lanes.Size()
    }
  }

  lemma {:induction false} LaneSizes<T>(es: seq<Entry<T>>)
    ensures |Column(es, High)| + |Column(es, Normal)| + |Column(es, Low)| == |es|
  {
    if es != [] {
      LaneSizes(es[1..]);
    }
  }

  // ----- puts between the probes of one get -----

  /** A `get` makes six probes. */
  const LAST_PROBE: nat := 5

  /** The lane looked at by the i-th probe of `get`. */
  function ProbeLane(i: nat): Lane
    requires i < 6
  {
    [High, Normal, Low, Normal, High, Low][i]
  }

  function PutAll<T>(lanes: Lanes<T>, es: seq<Entry<T>>): Lanes<T> {
    if es == [] then lanes
    else
      var e := es[|es| - 1];
      PutAll(lanes, es[..|es| - 1]).Put(e.lane, e.payload)
  }

  /** `get` from probe `i` on, with `puts[j]` arriving just before probe `j`. The last component
      is everything that arrived before `get` returned. */
  function GetUnderPuts<T>(lanes: Lanes<T>, puts: seq<seq<Entry<T>>>, i: nat)
    : (Lanes<T>, Option<Entry<T>>, seq<Entry<T>>)
    requires |puts| == 6 && i <= 6
    decreases 6 - i
  {
    if i == 6 then (lanes, None, [])
    else
      var now := PutAll(lanes, puts[i]);
      var lane := ProbeLane(i);
      if now.Of(lane) != [] then (now.With(lane, now.Of(lane)[1..]), Some(Entry(lane, now.Of(lane)[0])), puts[i])
      else
        var (after, item, arrived) := GetUnderPuts(now, puts, i + 1);
        (after, item, puts[i] + arrived)
  }

  lemma {:induction false} PutAllAppends<T>(lanes: Lanes<T>, es: seq<Entry<T>>, lane: Lane)
    ensures PutAll(lanes, es).Of(lane) == lanes.Of(lane) + Payloads(Column(es, lane))
  {
    if es != [] {
      var init, e := es[..|es| - 1], es[|es| - 1];
      PutAllAppends(lanes, init, lane);
      assert es == init + [e];
      ColumnSnoc(init, e, lane);
      PayloadsConcat(Column(init, lane), if e.lane == lane then [e] else []);
      ConcatAssociative(lanes.Of(lane), Payloads(Column(init, lane)), Payloads(if e.lane == lane then [e] else []));
    }
  }

  lemma {:induction false} ColumnConcat<T>(a: seq<Entry<T>>, b: seq<Entry<T>>, lane: Lane)
    ensures Column(a + b, lane) == Column(a, lane) + Column(b, lane)
  {
    if a == [] {
      assert a + b == b;
    } else {
      ColumnConcat(a[1..], b, lane);
      assert (a + b)[1..] == a[1..] + b;
      ConcatAssociative(if a[0].lane == lane then [a[0]] else [], Column(a[1..], lane), Column(b, lane));
    }
  }

  lemma PayloadsConcat<T>(a: seq<Entry<T>>, b: seq<Entry<T>>)
    ensures Payloads(a + b) == Payloads(a) + Payloads(b)
  {
  }

  lemma TakeHead<T>(lanes: Lanes<T>, probed: Lane, lane: Lane)
    requires lanes.Of(probed) != []
    ensures (if probed == lane then [lanes.Of(probed)[0]] else []) + lanes.With(probed, lanes.Of(probed)[1..]).Of(lane)
         == lanes.Of(lane)
  {
  }

  /** Whatever arrives between the probes, nothing is lost, duplicated or reordered within a lane:
      what was taken from a lane, followed by what remains in it, is what was there followed by
      what arrived. */
  lemma {:induction false} GetUnderPutsConserves<T>(lanes: Lanes<T>, puts: seq<seq<Entry<T>>>, i: nat, lane: Lane)
    requires |puts| == 6 && i <= 6
    ensures var (after, item, arrived) := GetUnderPuts(lanes, puts, i);
            (if item.Some? && item.value.lane == lane then [item.value.payload] else []) + after.Of(lane)
              == lanes.Of(lane) + Payloads(Column(arrived, lane))
    decreases 6 - i
  {
    if i < 6 {
      var now := PutAll(lanes, puts[i]);
      PutAllAppends(lanes, puts[i], lane);
      if now.Of(ProbeLane(i)) == [] {
        GetUnderPutsConserves(now, puts, i + 1, lane);
        var arrived := GetUnderPuts(now, puts, i + 1).2;
        ColumnConcat(puts[i], arrived, lane);
        PayloadsConcat(Column(puts[i], lane), Column(arrived, lane));
        ConcatAssociative(lanes.Of(lane), Payloads(Column(puts[i], lane)), Payloads(Column(arrived, lane)));
      } else {
        TakeHead(now, ProbeLane(i), lane);
      }
    }
  }

  /** Something has come into the lane by the j-th probe, or was there. */
  ghost predicate Filled<T>(lanes: Lanes<T>, puts: seq<seq<Entry<T>>>, lane: Lane, j: nat) {
    lanes.Of(lane) != [] || exists i :: 0 <= i <= j && i < |puts| && Column(puts[i], lane) != []
  }

  /** The lanes after the first puts, with nothing taken. */
  function Untaken<T>(lanes: Lanes<T>, puts: seq<seq<Entry<T>>>, n: nat): Lanes<T>
    requires n <= |puts|
  {
    if n == 0 then lanes else PutAll(Untaken(lanes, puts, n - 1), puts[n - 1])
  }

  lemma {:induction false} UntakenIsFilled<T>(lanes: Lanes<T>, puts: seq<seq<Entry<T>>>, lane: Lane, j: nat)
    requires j < |puts|
    ensures Untaken(lanes, puts, j + 1).Of(lane) != [] <==> Filled(lanes, puts, lane, j)
  {
    PutAllAppends(Untaken(lanes, puts, j), puts[j], lane);
    FilledStep(lanes, puts, lane, j);
    if j > 0 {
      UntakenIsFilled(lanes, puts, lane, j - 1);
    }
  }

  lemma {:induction false} FilledStep<T>(lanes: Lanes<T>, puts: seq<seq<Entry<T>>>, lane: Lane, j: nat)
    requires j < |puts|
    ensures Filled(lanes, puts, lane, j) <==>
              (if j == 0 then lanes.Of(lane) != [] else Filled(lanes, puts, lane, j - 1)) || Column(puts[j], lane) != []
  {
    if Column(puts[j], lane) != [] {
      assert Filled(lanes, puts, lane, j);
    } else if j > 0 && Filled(lanes, puts, lane, j) && lanes.Of(lane) == [] {
      var i :| 0 <= i <= j && i < |puts| && Column(puts[i], lane) != [];
      assert i <= j - 1;
    }
  }

  /** The lane that a `get` takes from, whatever arrives meanwhile: high if it holds something at the first
      probe, else normal at the second, else low at the third; else normal, high and low once more. */
  lemma {:induction false} ServedExactly<T>(lanes: Lanes<T>, puts: seq<seq<Entry<T>>>)
    requires |puts| == 6
    ensures var item := GetUnderPuts(lanes, puts, 0).1;
            && (item.None? <==> !Filled(lanes, puts, Normal, 3) && !Filled(lanes, puts, High, 4)
                                && !Filled(lanes, puts, Low, 5))
            && (item.Some? ==>
                  item.value.lane
                  == if Filled(lanes, puts, High, 0) then High
                     else if Filled(lanes, puts, Normal, 1) then Normal
                     else if Filled(lanes, puts, Low, 2) then Low
                     else if Filled(lanes, puts, Normal, 3) then Normal
                     else if Filled(lanes, puts, High, 4) then High else Low)
  {
    UntakenIsFilled(lanes, puts, High, 0);
    UntakenIsFilled(lanes, puts, Normal, 1);
    UntakenIsFilled(lanes, puts, Low, 2);
    UntakenIsFilled(lanes, puts, Normal, 3);
    UntakenIsFilled(lanes, puts, High, 4);
    UntakenIsFilled(lanes, puts, Low, 5);
    ProbeUnfolds(lanes, puts, 0);
    ProbeUnfolds(lanes, puts, 1);
    ProbeUnfolds(lanes, puts, 2);
    ProbeUnfolds(lanes, puts, 3);
    ProbeUnfolds(lanes, puts, 4);
    ProbeUnfolds(lanes, puts, 5);
  }

  lemma ProbeUnfolds<T>(lanes: Lanes<T>, puts: seq<seq<Entry<T>>>, i: nat)
    requires |puts| == 6 && i < 6
    ensures var before, now := Untaken(lanes, puts, i), Untaken(lanes, puts, i + 1);
            && now == PutAll(before, puts[i])
            && if now.Of(ProbeLane(i)) != []
               then GetUnderPuts(before, puts, i).1 == Some(Entry(ProbeLane(i), now.Of(ProbeLane(i))[0]))
               else GetUnderPuts(before, puts, i).0 == GetUnderPuts(now, puts, i + 1).0
                    && GetUnderPuts(before, puts, i).1 == GetUnderPuts(now, puts, i + 1).1
  {
  }

  lemma {:induction false} EmptyHanded<T>(lanes: Lanes<T>, puts: seq<seq<Entry<T>>>, i: nat)
    requires |puts| == 6 && i <= 6 && GetUnderPuts(Untaken(lanes, puts, i), puts, i).1 == None
    ensures GetUnderPuts(Untaken(lanes, puts, i), puts, i).0 == Untaken(lanes, puts, 6)
    ensures forall j :: i <= j < 6 ==> Untaken(lanes, puts, j + 1).Of(ProbeLane(j)) == []
    decreases 6 - i
  {
    if i < 6 {
      ProbeUnfolds(lanes, puts, i);
      EmptyHanded(lanes, puts, i + 1);
    }
  }

  /** `get` gives up only on lanes it found empty: what a None leaves behind arrived after the
      last probe of its lane. */
  lemma {:induction false} NothingOverlooked<T>(lanes: Lanes<T>, puts: seq<seq<Entry<T>>>)
    requires |puts| == 6 && GetUnderPuts(lanes, puts, 0).1 == None
    ensures var after := GetUnderPuts(lanes, puts, 0).0;
            && after.normal == Payloads(Column(puts[4], Normal)) + Payloads(Column(puts[5], Normal))
            && after.high == Payloads(Column(puts[5], High))
            && after.low == []
  {
    EmptyHanded(lanes, puts, 0);
    assert Untaken(lanes, puts, 3 + 1).Of(ProbeLane(3)) == [];
    assert Untaken(lanes, puts, 4 + 1).Of(ProbeLane(4)) == [];
    assert Untaken(lanes, puts, 5 + 1).Of(ProbeLane(5)) == [];
    NextUntaken(lanes, puts, 4, Normal);
    NextUntaken(lanes, puts, 5, Normal);
    NextUntaken(lanes, puts, 5, High);
  }

  lemma NextUntaken<T>(lanes: Lanes<T>, puts: seq<seq<Entry<T>>>, i: nat, lane: Lane)
    requires i < |puts|
    ensures Untaken(lanes, puts, i + 1).Of(lane) == Untaken(lanes, puts, i).Of(lane) + Payloads(Column(puts[i], lane))
  {
    PutAllAppends(Untaken(lanes, puts, i), puts[i], lane);
  }
}
