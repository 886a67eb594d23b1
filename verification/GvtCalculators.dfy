/** The GVT calculator of one LP: colour, red time and counters, updated in place. */
module GvtCalculators {
  import opened Gvt
  import opened GvtRounds
  import opened Timelines
  import opened WritePeriods

  datatype ValueMessage = ValueMessage(destination: nat, gvt: nat)

  predicate IsLesser(least: nat, a: nat, b: nat) {
    least <= a && least <= b && (least == a || least == b)
  }

  class GvtCalculator {
    const rank: nat
    const size: nat
    var colour: Colour
    var redTime: nat
    var accepting: bool
    var counters: map<nat, int>
    var gvt: nat

    constructor (rank: nat, size: nat, startTime: nat)
      requires rank < size
      ensures this.rank == rank && this.size == size && accepting && gvt == startTime
      ensures forall lvt :: View(lvt) == Lp(WHITE, map[], ULONG_MAX, lvt)
    {
      this.rank, this.size := rank, size;
      colour, redTime, accepting, counters, gvt := WHITE, ULONG_MAX, true, map[], startTime;
    }

    ghost function View(lvt: nat): Lp
      reads this
    {
      Lp(colour, counters, redTime, lvt)
    }

    method GetWhiteTransientMessageCounter(j: nat) returns (count: int)
      ensures count == Counter(counters, j)
    {
      return if j in counters then counters[j] else -1;
    }

    /** Before a simulation message is sent. A white LP must not have consumed fewer messages than it was sent. */
    method PreProcessSendMessage(destination: nat, time: nat) returns (m: Simulation)
      requires destination != rank && (colour == WHITE ==> Counter(counters, rank) <= 0)
      modifies this`redTime, this`counters
      ensures m == Simulation(destination, time, old(colour))
      ensures if old(colour) == WHITE then
                && redTime == old(redTime)
                && counters == old(counters)[destination := (if destination in old(counters) then old(counters)[destination] else 0) + 1]
              else
                counters == old(counters) && IsLesser(redTime, old(redTime), time)
      ensures forall lvt :: View(lvt) == AfterSend(old(View(lvt)), destination, time)
    {
      m := Simulation(destination, time, colour);
      if colour == WHITE {
        counters := counters[destination := (if destination in counters then counters[destination] else 0) + 1];
      } else {
        redTime := if redTime < time then redTime else time;
      }
    }

    method PreProcessReceiveMessage(m: Simulation)
      modifies this`counters
      ensures forall lvt :: View(lvt) == AfterReceive(old(View(lvt)), rank, m)
    {
      if m.colour == WHITE {
        counters := counters[rank := (if rank in counters then counters[rank] else 0) - 1];
      }
    }

    /** Only the starter answers, and only when no round is under way. */
    method ProcessRequest() returns (control: Option<Control>)
      requires size > 0
      modifies this`accepting, this`colour
      ensures control == if rank == 0 && old(accepting) then Some(FirstControl(size)) else None
      ensures control.Some? ==>
                && control.value.destination == 1 % size && control.value.cut == FIRST
                && control.value.minimumTime == LONG_MAX == control.value.redTime
                && forall j: nat :: (j in control.value.counts <==> j < size) && (j < size ==> control.value.counts[j] == 0)
      ensures control.Some? ==> !accepting && colour == WHITE
      ensures control == None ==> accepting == old(accepting) && colour == old(colour)
    {
      if rank != 0 || !accepting {
        return None;
      }
      accepting := false;
      colour := WHITE;
      var counts: map<nat, int> := map[];
      for next := 0 to size
        invariant counts == Zeros(next)
      {
        counts := counts[next := 0];
      }
      control := Some(Control((rank + 1) % size, LONG_MAX, LONG_MAX, FIRST, counts));
    }

    method ProcessValue(value: nat)
      modifies this`gvt, this`colour
      ensures if rank == 0 then gvt == old(gvt) && colour == old(colour) else gvt == value && colour == WHITE
    {
      if rank != 0 {
        gvt := value;
        colour := WHITE;
      }
    }

    /** The cut at this LP. The starter announces the least time found if it sees no white message under way, and
        starts the second cut otherwise. */
    method ProcessFirstCut(c: Control, lvt: nat) returns (control: Option<Control>, values: seq<ValueMessage>)
      requires rank < size
      modifies this
      ensures var lp := old(View(lvt));
              var cut := ControlAfter(lp, size, c);
              if rank != 0 then
                && control == Some(cut.(destination := (rank + 1) % size)) && values == []
                && View(lvt) == AfterCut(lp) && accepting == old(accepting) && gvt == old(gvt)
              else if TransientsRemain(lp.counters, cut.counts) then
                && control == Some(cut.(destination := 1 % size, cut := SECOND)) && values == []
                && View(lvt) == AfterCut(lp) && accepting == old(accepting) && gvt == old(gvt)
              else
                && control == None && View(lvt) == AfterCut(lp).(colour := WHITE) && accepting && gvt == Announced(cut)
                && IsSentToAll(values, gvt)
      ensures redTime == LONG_MAX && counters == old(counters) && colour == if control == None then WHITE else RED
      ensures control == None ==> exists least :: IsLesser(least, lvt, c.minimumTime) && IsLesser(gvt, least, c.redTime)
      ensures control.Some? ==>
                && IsLesser(control.value.minimumTime, lvt, c.minimumTime) && control.value.redTime == c.redTime
                && forall j: nat :: j < size ==>
                     j in control.value.counts && control.value.counts[j] == Counter(c.counts, j) + Counter(old(counters), j)
    {
      ghost var lp := View(lvt);
      var minimumTime := if lvt < c.minimumTime then lvt else c.minimumTime;
      var counts := UpdateCounts(c.counts);
      ghost var cut := ControlAfter(lp, size, c);
      colour := RED;
      redTime := LONG_MAX;
      values := [];
      if rank == 0 {
        var remaining := HasTransients(counts);
        if !remaining {
          colour := WHITE;
          values := SendAndSetGvt(minimumTime, c.redTime);
          control := None;
          assert IsLesser(minimumTime, lvt, c.minimumTime);
        } else {
          control := Some(Control((rank + 1) % size, minimumTime, c.redTime, SECOND, counts));
        }
      } else {
        control := Some(c.(destination := (rank + 1) % size, minimumTime := minimumTime, counts := counts));
      }
    }

    method UpdateCounts(before: map<nat, int>) returns (counts: map<nat, int>)
      ensures counts == CountsAfter(counters, size, before)
    {
      counts := before;
      assert counts == CountsAfter(counters, 0, before);
      for j := 0 to size
        invariant counts == CountsAfter(counters, j, before)
      {
        var local := GetWhiteTransientMessageCounter(j);
        counts := counts[j := (if j in counts then counts[j] else -1) + local];
      }
    }

    method HasTransients(counts: map<nat, int>) returns (remaining: bool)
      ensures remaining == TransientsRemain(counters, counts)
    {
      remaining := false;
      var todo: set<nat> := counters.Keys;
      while todo != {}
        invariant todo <= counters.Keys
        invariant remaining <==> exists j :: j in counters && j !in todo && j in counts && counts[j] > 0
        decreases todo
      {
        var j: nat :| j in todo;
        todo := todo - {j};
        if j in counts && counts[j] > 0 {
          remaining := true;
        }
      }
    }

    /** One message to every other LP. */
    ghost predicate IsSentToAll(values: seq<ValueMessage>, value: nat) {
      && (forall m :: m in values ==> m.destination < size && m.destination != rank && m.gvt == value)
      && (forall j: nat :: j < size && j != rank ==> ValueMessage(j, value) in values)
      && |values| == size - 1
    }

    method SendAndSetGvt(minimumTime: nat, redMinimum: nat) returns (values: seq<ValueMessage>)
      requires rank < size
      modifies this`accepting, this`gvt
      ensures accepting && gvt == (if minimumTime < redMinimum then minimumTime else redMinimum)
      ensures IsSentToAll(values, gvt)
      ensures forall m :: m in values <==> m.destination < size && m.destination != rank && m.gvt == gvt
      ensures |values| == size - 1
    {
      accepting := true;
      var value := if minimumTime < redMinimum then minimumTime else redMinimum;
      values := [];
      for j := 0 to size
        invariant |values| == (if j <= rank then j else j - 1)
        invariant forall m :: m in values ==> m.destination < size && m.destination != rank && m.gvt == value
        invariant forall i: nat :: i < j && i != rank ==> ValueMessage(i, value) in values
      {
        if j != rank {
          values := values + [ValueMessage(j, value)];
        }
      }
      gvt := value;
    }
  }
}
