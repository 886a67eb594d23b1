/** What an ALP keeps of its agents, and how it takes an agent back. */
module AlpRollbacks {
  import opened Filters
  import opened LpIds
  import opened Timelines
  import opened WritePeriods

  /** Requests of agents, their anti-messages, and anything else an ALP sends. */
  datatype Message =
    | ReadRequest(agent: LpId, time: nat, variable: SsvId, id: nat)
    | WriteRequest(agent: LpId, time: nat, variable: SsvId, value: Value, id: nat)
    | RangeRequest(agent: LpId, time: nat, low: Point, high: Point, id: nat)
    | AntiRead(agent: LpId, time: nat, variable: SsvId)
    | AntiWrite(agent: LpId, time: nat, variable: SsvId)
    | AntiRange(agent: LpId, time: nat, low: Point, high: Point, id: nat)
    | Other(content: string)

  predicate IsRequest(m: Message) {
    m.ReadRequest? || m.WriteRequest? || m.RangeRequest?
  }

  predicate HasId(m: Message, id: nat) {
    IsRequest(m) && m.id == id
  }

  function Anti(m: Message): Message
    requires IsRequest(m)
  {
    match m
    case ReadRequest(agent, time, variable, _) => AntiRead(agent, time, variable)
    case WriteRequest(agent, time, variable, _, _) => AntiWrite(agent, time, variable)
    case RangeRequest(agent, time, low, high, id) => AntiRange(agent, time, low, high, id)
  }

  /** A rollback to `t` undoes the reads and range queries at or after `t`, but not the write made at `t`:
      an agent writes at the end of the step that starts at `t`. */
  predicate IsUndone(m: Message, agent: LpId, t: nat) {
    match m
    case ReadRequest(a, time, _, _) => a == agent && time >= t
    case RangeRequest(a, time, _, _, _) => a == agent && time >= t
    case WriteRequest(a, time, _, _, _) => a == agent && time > t
    case _ => false
  }

  function Undone(agent: LpId, t: nat): Message -> bool {
    m => IsUndone(m, agent, t)
  }

  function Kept(agent: LpId, t: nat): Message -> bool {
    m => !IsUndone(m, agent, t)
  }

  function Recent(t: nat): Message -> bool {
    m => IsRequest(m) && m.time >= t
  }

  /** Anti-messages in the order of the requests; none for a request before the global virtual time. */
  function Antis(undone: seq<Message>, gvt: nat): seq<Message> {
    if undone == [] then []
    else
      var m := undone[|undone| - 1];
      Antis(undone[..|undone| - 1], gvt) + if IsRequest(m) && m.time >= gvt then [Anti(m)] else []
  }

  class HasSendList {
    var sendList: seq<Message>

    constructor ()
      ensures sendList == []
    {
      sendList := [];
    }

    method AddToSendList(m: Message)
      modifies this
      ensures sendList == old(sendList) + [m]
    {
      sendList := sendList + [m];
    }

    /** The undone requests are taken out and returned; both lists keep their order. */
    method RollbackSendList(t: nat, agent: LpId) returns (undone: seq<Message>)
      modifies this
      ensures undone == Filter(old(sendList), Undone(agent, t))
      ensures sendList == Filter(old(sendList), Kept(agent, t))
    {
      undone := [];
      var i := 0;
      ghost var j, was := 0, sendList;
      while i < |sendList|
        invariant i <= |sendList| && j <= |was|
        invariant sendList[..i] == Filter(was[..j], Kept(agent, t)) && sendList[i..] == was[j..]
        invariant undone == Filter(was[..j], Undone(agent, t))
        decreases |sendList| - i
      {
        FilterStep(was, j, Kept(agent, t));
        FilterStep(was, j, Undone(agent, t));
        EraseStep(sendList, i, was, j);
        if IsUndone(sendList[i], agent, t) {
          undone := undone + [sendList[i]];
          sendList := sendList[..i] + sendList[i + 1..];
        } else {
          i := i + 1;
        }
        j := j + 1;
      }
      assert was[..j] == was && sendList[..i] == sendList;
    }

    /** A write that failed is forgotten: the first request with its identifier goes. */
    method RemoveFromSendList(id: nat) returns (found: bool)
      modifies this
      ensures !found ==> sendList == old(sendList) && forall m :: m in sendList ==> !HasId(m, id)
      ensures found ==> exists k :: 0 <= k < |old(sendList)| && HasId(old(sendList)[k], id) &&
                          (forall j :: 0 <= j < k ==> !HasId(old(sendList)[j], id)) &&
                          sendList == old(sendList)[..k] + old(sendList)[k + 1..]
    {
      for i := 0 to |sendList|
        invariant sendList == old(sendList) && forall j :: 0 <= j < i ==> !HasId(sendList[j], id)
      {
        if HasId(sendList[i], id) {
          sendList := sendList[..i] + sendList[i + 1..];
          return true;
        }
      }
      return false;
    }

    method ClearSendList(t: nat)
      requires forall m :: m in sendList ==> IsRequest(m)
      modifies this
      ensures sendList == Filter(old(sendList), Recent(t))
      ensures forall m :: m in sendList <==> m in old(sendList) && m.time >= t
    {
      FilterMembers(sendList, Recent(t));
      var i := 0;
      ghost var j, was := 0, sendList;
      while i < |sendList|
        invariant i <= |sendList| && j <= |was|
        invariant sendList[..i] == Filter(was[..j], Recent(t)) && sendList[i..] == was[j..]
        decreases |sendList| - i
      {
        FilterStep(was, j, Recent(t));
        EraseStep(sendList, i, was, j);
        assert was[j] in was;
        if sendList[i].time < t {
          sendList := sendList[..i] + sendList[i + 1..];
        } else {
          i := i + 1;
        }
        j := j + 1;
      }
      assert was[..j] == was && sendList[..i] == sendList;
    }
  }

  class MessageQueue {
    var items: seq<Message>

    constructor ()
      ensures items == []
    {
      items := [];
    }

    method QueueMessage(m: Message)
      modifies this
      ensures items == old(items) + [m]
    {
      items := items + [m];
    }

    method DequeueMessage() returns (m: Message)
      requires items != []
      modifies this
      ensures [m] + items == old(items)
    {
      m := items[0];
      items := items[1..];
    }

    method RemoveMessages(agent: LpId, t: nat)
      modifies this
      ensures items == Filter(old(items), Kept(agent, t))
    {
      var i := 0;
      ghost var j, was := 0, items;
      while i < |items|
        invariant i <= |items| && j <= |was|
        invariant items[..i] == Filter(was[..j], Kept(agent, t)) && items[i..] == was[j..]
        decreases |items| - i
      {
        FilterStep(was, j, Kept(agent, t));
        EraseStep(items, i, was, j);
        if IsUndone(items[i], agent, t) {
          items := items[..i] + items[i + 1..];
        } else {
          i := i + 1;
        }
        j := j + 1;
      }
      assert was[..j] == was && items[..i] == items;
    }
  }

  // ---- Local virtual times ----

  /** Entries never decrease, start with 0 and end with the current time. */
  predicate IsHistory(h: seq<nat>, lvt: nat) {
    h != [] && h[0] == 0 && h[|h| - 1] == lvt && IsSorted(h)
  }

  predicate IsSorted(h: seq<nat>) {
    forall i, j :: 0 <= i <= j < |h| ==> h[i] <= h[j]
  }

  /** `std::upper_bound`: the first entry after `t`. */
  method UpperBound(h: seq<nat>, t: nat) returns (k: nat)
    requires IsSorted(h)
    ensures k <= |h|
    ensures (forall i :: 0 <= i < k ==> h[i] <= t) && (forall i :: k <= i < |h| ==> h[i] > t)
  {
    k := 0;
    var length: nat := |h|;
    while length > 0
      invariant k + length <= |h|
      invariant forall i :: 0 <= i < k ==> h[i] <= t
      invariant forall i :: k + length <= i < |h| ==> h[i] > t
    {
      var half := length / 2;
      if h[k + half] > t {
        length := half;
      } else {
        k, length := k + half + 1, length - half - 1;
      }
    }
  }

  /** The history an agent is taken back to: its entries up to `t`. */
  predicate IsTakenBack(h: seq<nat>, after: seq<nat>, t: nat) {
    && after <= h && after != [] && after[|after| - 1] <= t
    && forall i :: |after| <= i < |h| ==> h[i] > t
  }

  method CutBehind(h: seq<nat>, ghost lvt: nat, t: nat) returns (after: seq<nat>)
    requires IsHistory(h, lvt)
    ensures after != [] && IsHistory(after, after[|after| - 1]) && IsTakenBack(h, after, t)
  {
    var k := UpperBound(h, t);
    after := h[..k];
  }

  class Alp {
    const sent: HasSendList
    const queue: MessageQueue
    var gvt: nat
    var lvts: map<nat, nat>
    var histories: map<nat, seq<nat>>

    constructor (startTime: nat)
      ensures Valid() && fresh(sent) && fresh(queue) && gvt == startTime && lvts == map[]
      ensures sent.sendList == [] && queue.items == []
    {
      gvt, lvts, histories := startTime, map[], map[];
      sent := new HasSendList();
      queue := new MessageQueue();
    }

    ghost predicate Valid()
      reads this, sent
    {
      HistoriesFit() && forall m :: m in sent.sendList ==> IsRequest(m)
    }

    ghost predicate HistoriesFit()
      reads this
    {
      lvts.Keys == histories.Keys && forall a :: a in lvts ==> IsHistory(histories[a], lvts[a])
    }

    method AddAgent(a: nat) returns (added: bool)
      requires Valid()
      modifies this
      ensures Valid() && gvt == old(gvt) && added == (a !in old(lvts))
      ensures lvts == (if added then old(lvts)[a := 0] else old(lvts))
      ensures histories == if added then old(histories)[a := [0]] else old(histories)
    {
      if a in lvts {
        return false;
      }
      lvts := lvts[a := 0];
      histories := histories[a := [0]];
      return true;
    }

    /** A time before the current one changes nothing. */
    method SetAgentLvt(a: nat, lvt: nat)
      requires Valid() && a in lvts
      modifies this
      ensures Valid() && gvt == old(gvt)
      ensures lvts == old(lvts)[a := if old(lvts)[a] <= lvt then lvt else old(lvts)[a]]
      ensures histories == old(histories)[a := if old(lvts)[a] <= lvt then old(histories)[a] + [lvt] else old(histories)[a]]
    {
      if lvts[a] <= lvt {
        lvts := lvts[a := lvt];
        histories := histories[a := histories[a] + [lvt]];
      }
    }

    /** The least time of all agents; the greatest number when there is none. */
    method GetLvt() returns (least: nat)
      ensures least <= ULONG_MAX && forall a :: a in lvts ==> least <= lvts[a]
      ensures least == ULONG_MAX || exists a :: a in lvts && lvts[a] == least
    {
      least := ULONG_MAX;
      var todo: set<nat> := lvts.Keys;
      while todo != {}
        invariant todo <= lvts.Keys && least <= ULONG_MAX
        invariant forall a :: a in lvts && a !in todo ==> least <= lvts[a]
        invariant least == ULONG_MAX || exists a :: a in lvts && lvts[a] == least
        decreases todo
      {
        var a: nat :| a in todo;
        todo := todo - {a};
        if lvts[a] < least {
          least := lvts[a];
        }
      }
    }

    method SetGvt(t: nat)
      requires Valid()
      modifies this`gvt, sent
      ensures Valid() && gvt == t && sent.sendList == Filter(old(sent.sendList), Recent(t))
      ensures forall m :: m in sent.sendList <==> m in old(sent.sendList) && m.time >= t
    {
      gvt := t;
      sent.ClearSendList(t);
    }

    /** The next message leaves; requests are remembered. */
    method Send() returns (m: Option<Message>)
      requires Valid()
      modifies sent, queue
      ensures Valid()
      ensures old(queue.items) == [] ==> m == None && queue.items == [] && sent.sendList == old(sent.sendList)
      ensures old(queue.items) != [] ==>
                && m == Some(old(queue.items)[0]) && queue.items == old(queue.items)[1..]
                && sent.sendList == old(sent.sendList) + if IsRequest(m.value) then [m.value] else []
    {
      if queue.items == [] {
        return None;
      }
      var next := queue.DequeueMessage();
      if IsRequest(next) {
        sent.AddToSendList(next);
      }
      return Some(next);
    }

    /** An agent is taken back to `t`; a rollback known already or later than its time changes nothing. */
    method ProcessRollback(agent: LpId, t: nat, known: bool) returns (done: bool)
      requires Valid() && agent.id in lvts
      modifies this, sent, queue
      ensures Valid() && gvt == old(gvt) && done == (!known && t <= old(lvts)[agent.id])
      ensures !done ==> lvts == old(lvts) && histories == old(histories) && sent.sendList == old(sent.sendList) && queue.items == old(queue.items)
      ensures done ==>
                && agent.id in lvts && agent.id in histories
                && lvts == old(lvts)[agent.id := lvts[agent.id]] && histories == old(histories)[agent.id := histories[agent.id]]
                && IsTakenBack(old(histories)[agent.id], histories[agent.id], t)
                && sent.sendList == Filter(old(sent.sendList), Kept(agent, t))
                && queue.items == Filter(old(queue.items), Kept(agent, t)) +
                                  Antis(Filter(old(sent.sendList), Undone(agent, t)), gvt)
    {
      if known || t > lvts[agent.id] {
        return false;
      }
      hide HistoriesFit, IsTakenBack, Filter, Antis;
      TakeBack(agent.id, t);
      TakeBackMessages(agent, t);
      done := true;
    }

    method TakeBackMessages(agent: LpId, t: nat)
      requires forall m :: m in sent.sendList ==> IsRequest(m)
      modifies sent, queue
      ensures sent.sendList == Filter(old(sent.sendList), Kept(agent, t))
      ensures forall m :: m in sent.sendList ==> IsRequest(m)
      ensures queue.items == Filter(old(queue.items), Kept(agent, t)) +
                             Antis(Filter(old(sent.sendList), Undone(agent, t)), gvt)
    {
      FilterMembers(sent.sendList, Kept(agent, t));
      FilterMembers(sent.sendList, Undone(agent, t));
      hide Filter, Antis;
      queue.RemoveMessages(agent, t);
      var undone := sent.RollbackSendList(t, agent);
      SendAntis(undone);
    }

    /** The history is cut behind `t`; there is always an entry left. */
    method TakeBack(a: nat, t: nat)
      requires HistoriesFit() && a in lvts
      modifies this`lvts, this`histories
      ensures HistoriesFit() && a in lvts
      ensures lvts == old(lvts)[a := lvts[a]] && histories == old(histories)[a := histories[a]]
      ensures IsTakenBack(old(histories)[a], histories[a], t)
    {
      hide IsHistory, IsTakenBack;
      var after := CutBehind(histories[a], lvts[a], t);
      histories := histories[a := after];
      lvts := lvts[a := after[|after| - 1]];
    }

    method SendAntis(undone: seq<Message>)
      requires forall m :: m in undone ==> IsRequest(m)
      modifies queue
      ensures queue.items == old(queue.items) + Antis(undone, gvt)
    {
      assert undone[..0] == [];
      for i := 0 to |undone|
        invariant queue.items == old(queue.items) + Antis(undone[..i], gvt)
      {
        assert undone[i] in undone && undone[..i + 1][..i] == undone[..i];
        if gvt <= undone[i].time {
          queue.QueueMessage(Anti(undone[i]));
        }
      }
      assert undone[..|undone|] == undone;
    }
  }
}
