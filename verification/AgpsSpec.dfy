/** The AGPS resource state machine of gps/libloc_api_50001/loc_eng_agps.{h,cpp} as functions on
    values.  `Machine` is one AgpsStateMachine (or DSStateMachine) object together with the trace
    of everything it did that others can see; `Step` is one public call on it. */
module AgpsSpec {
  import opened ListSpec

  type Handle = x: int | 0 <= x < 0x1_0000_0000
  const INADDR_NONE: Handle := 0xFFFF_FFFF

  const MAX_START_DATA_CALL_RETRIES := 4

  const ERR_SUCCESS := 0
  const ERR_UNSUPPORTED := 2
  const ERR_ENGINE_BUSY := 6

  datatype Kind = Bit | Atl | Wifi | Ds

  /** What identifies a subscriber.  `v6` is the address up to its first NUL; the kinds that have
      no address carry an arbitrary one, which only a Bit entry with no IPv4 address ever reads. */
  datatype Client = Client(kind: Kind, id: Handle, v6: string) {
    predicate Equals(other: Client) {
      id == other.id && (kind.Bit? && id == INADDR_NONE ==> v6 == other.v6)
    }

    predicate WaitsForClose() {
      kind.Wifi? || kind.Ds?
    }
  }

  /** A subscriber in the list: the clone made by addSubscriber. */
  datatype Entry = Entry(client: Client, inactive: bool) {
    predicate IsInactive() {
      client.WaitsForClose() && inactive
    }
  }

  datatype Status = RsrcSubscribe | RsrcUnsubscribe | RsrcGranted | RsrcReleased | RsrcDenied | RsrcMax

  /** The statuses that end a subscription. */
  predicate Terminal(status: Status) {
    status.RsrcUnsubscribe? || status.RsrcReleased? || status.RsrcDenied?
  }

  datatype Receiver = To(client: Client) | BroadcastAll | BroadcastActive | BroadcastInactive

  datatype Notification = Notification(rcver: Receiver, status: Status, deleteAfter: bool) {
    predicate ForMe(e: Entry) {
      match rcver
      case To(c) => e.client.Equals(c)
      case BroadcastAll => true
      case BroadcastActive => !e.IsInactive()
      case BroadcastInactive => e.IsInactive()
    }

    /** notifyRsrcStatus acts on the entry and returns true. */
    predicate Reaches(e: Entry) {
      ForMe(e) && (Terminal(status) || status.RsrcGranted?)
    }
  }

  function Reached(n: Notification): Entry -> bool {
    (e: Entry) => n.Reaches(e)
  }

  function Matching(r: Receiver): Entry -> bool {
    (e: Entry) => Notification(r, RsrcMax, false).ForMe(e)
  }

  datatype Action = Request | Release

  datatype Effect =
    | Told(client: Client, status: Status, listed: bool)  // notifyRsrcStatus acted; listed: on a list entry
    | Added(client: Client)                               // a clone entered the list
    | Removed(client: Client)                             // the entry left the list after its notification
    | Deactivated(client: Client)                         // setInactive
    | Dropped                                             // the list was flushed without notification
    | Asked(action: Action)                               // the servicer was called
    | Suppressed(action: Action)                          // sendRsrcRequest skipped the servicer
    | Accepted(status: Status)                            // a framework event the current state acts on
    | RetryTimer                                          // DS: a delayed retry was started
    | FellBack(handle: Option<Handle>)                    // DS: informStatus(RSRC_DENIED) after a failed call

  datatype State = Released | Pending | Acquired | Releasing

  datatype Machine = Machine(state: State, subs: seq<Entry>, single: bool, ds: bool,
                             retries: nat, trace: seq<Effect>)

  function Fresh(single: bool, ds: bool): Machine {
    Machine(Released, [], single, ds, 0, [])
  }

  /** What the servicer and the timer library answer. */
  datatype Reply = Reply(code: int, timerStarted: bool)

  function Log(m: Machine, e: Effect): Machine {
    m.(trace := m.trace + [e])
  }

  predicate HasActive(s: seq<Entry>) {
    exists k :: 0 <= k < |s| && !s[k].IsInactive()
  }

  predicate HasInactive(s: seq<Entry>) {
    exists k :: 0 <= k < |s| && s[k].IsInactive()
  }

  function FirstMatch(s: seq<Entry>, r: Receiver): (k: nat)
    ensures k <= |s|
    ensures k < |s| ==> Notification(r, RsrcMax, false).ForMe(s[k])
    ensures forall j :: 0 <= j < k ==> !Notification(r, RsrcMax, false).ForMe(s[j])
  {
    IndexOf(s, Matching(r))
  }

  function Tell(m: Machine, c: Client, status: Status, listed: bool): Machine {
    Log(m, Told(c, status, listed)).(retries := if c.kind.Ds? && status.RsrcDenied? then 0 else m.retries)
  }

  function Deliver(m: Machine, e: Entry, n: Notification): Machine {
    var told := Tell(m, e.client, n.status, true);
    if n.deleteAfter then Log(told, Removed(e.client)) else told
  }

  /** Walks `es` from the head and delivers `n` to each entry it reaches. */
  function TellAll(m: Machine, es: seq<Entry>, n: Notification): (r: Machine)
    ensures r == m.(trace := r.trace, retries := r.retries)
    decreases |es|
  {
    if es == [] then m
    else TellAll(if n.Reaches(es[0]) then Deliver(m, es[0], n) else m, es[1..], n)
  }

  function Notify(m: Machine, n: Notification): Machine {
    var told := TellAll(m, m.subs, n);
    if n.deleteAfter then told.(subs := Reject(m.subs, Reached(n))) else told
  }

  function AddSubscriber(m: Machine, c: Client): Machine {
    if FirstMatch(m.subs, To(c)) < |m.subs| then m
    else Log(m, Added(c)).(subs := [Entry(c, false)] + m.subs)
  }

  function FallBack(m: Machine, handle: Option<Handle>): Machine {
    Log(m, FellBack(handle)).(retries := 0)
  }

  function FirstActive(s: seq<Entry>): Option<Handle> {
    var k := FirstMatch(s, BroadcastActive);
    if k < |s| then Some(s[k].client.id) else None
  }

  /** What DSStateMachine does with the servicer's answer. */
  function Answered(m: Machine, reply: Reply): (Machine, int) {
    if reply.code == ERR_ENGINE_BUSY then
      var tries := (m.retries + 1) % 256;
      if tries > MAX_START_DATA_CALL_RETRIES then
        (FallBack(m, FirstActive(m.subs)), ERR_ENGINE_BUSY)
      else
        (Log(m, RetryTimer).(retries := tries), if reply.timerStarted then -1 else ERR_ENGINE_BUSY)
    else if reply.code == ERR_UNSUPPORTED || reply.code == -1 then
      (FallBack(m, FirstActive(m.subs)), reply.code)
    else
      (m, reply.code)
  }

  /** sendRsrcRequest of either class; the second component is its return value. */
  function Send(m: Machine, action: Action, reply: Reply): (Machine, int) {
    if m.ds then Answered(Log(m, Asked(action)), reply)
    else
      var none := FirstMatch(m.subs, BroadcastActive) == |m.subs|;
      (Log(m, if none == action.Release? then Asked(action) else Suppressed(action)), 0)
  }

  // ----- The five events in the four states

  function OnSubscribe(m: Machine, c: Client, reply: Reply): Machine {
    match m.state
    case Released =>
      var (sent, code) := Send(AddSubscriber(m, c), Request, reply);
      if code == ERR_SUCCESS then sent.(state := Pending) else sent
    case Acquired => AddSubscriber(Tell(m, c, RsrcGranted, false), c)
    case _ => AddSubscriber(m, c)
  }

  /** The entry at `k` stops using the resource. */
  function Leave(m: Machine, k: nat): Machine
    requires k < |m.subs|
  {
    var c := m.subs[k].client;
    if c.WaitsForClose() then Log(m, Deactivated(c)).(subs := m.subs[k := Entry(c, true)])
    else Notify(m, Notification(To(c), RsrcUnsubscribe, true))
  }

  function OnUnsubscribe(m: Machine, k: nat, reply: Reply): Machine
    requires k < |m.subs|
  {
    match m.state
    case Released => Tell(m, m.subs[k].client, RsrcUnsubscribe, true)
    case Releasing =>
      var left := Leave(m, k);
      if left.subs == [] then left.(state := Released) else left
    case _ =>
      var left := Leave(m, k);
      if left.subs == [] then Send(left, Release, reply).0.(state := Released)
      else if !HasActive(left.subs) then Send(left, Release, reply).0.(state := Releasing)
      else left
  }

  predicate Accepts(state: State, status: Status) {
    match state
    case Released => false
    case Pending => status.RsrcGranted? || status.RsrcDenied?
    case Acquired => status.RsrcReleased?
    case Releasing => status.RsrcReleased? || status.RsrcDenied?
  }

  function OnStatus(m: Machine, status: Status, reply: Reply): Machine {
    if !Accepts(m.state, status) then m
    else
      var heard := Log(m, Accepted(status));
      match m.state
      case Pending =>
        if status.RsrcGranted? then
          Notify(heard, Notification(BroadcastActive, status, false)).(state := Acquired)
        else
          Notify(heard, Notification(BroadcastAll, status, true)).(state := Released)
      case Acquired => Notify(heard, Notification(BroadcastAll, status, true)).(state := Released)
      case _ =>
        var closed := Notify(heard, Notification(BroadcastInactive, status, true));
        if HasActive(closed.subs) then Send(closed, Request, reply).0.(state := Pending)
        else closed.(state := Released)
  }

  // ----- The public calls

  function SubscribeRsrc(m: Machine, c: Client, reply: Reply): Machine {
    if m.single && m.subs != [] then Tell(m, c, RsrcDenied, false) else OnSubscribe(m, c, reply)
  }

  function UnsubscribeRsrc(m: Machine, c: Client, reply: Reply): Machine {
    var k := FirstMatch(m.subs, To(c));
    if k < |m.subs| then OnUnsubscribe(m, k, reply) else m
  }

  function OnRsrcEvent(m: Machine, status: Status, reply: Reply): Machine {
    if status.RsrcGranted? || status.RsrcDenied? then OnStatus(m, status, reply)
    else if status.RsrcReleased? then
      var released := OnStatus(m, status, reply);
      if m.ds && released.state == m.state then OnStatus(released, RsrcDenied, reply) else released
    else m
  }

  function DropAllSubscribers(m: Machine): Machine {
    Log(m, Dropped).(subs := [])
  }

  datatype Call =
    | Subscribe(client: Client)
    | Unsubscribe(client: Client)
    | Event(status: Status)
    | Drop

  function Step(m: Machine, call: Call, reply: Reply): Machine {
    match call
    case Subscribe(c) => SubscribeRsrc(m, c, reply)
    case Unsubscribe(c) => UnsubscribeRsrc(m, c, reply)
    case Event(status) => OnRsrcEvent(m, status, reply)
    case Drop => DropAllSubscribers(m)
  }

  /** Any sequence of calls, each with the answers it got from outside. */
  function Run(m: Machine, calls: seq<(Call, Reply)>): Machine {
    if calls == [] then m
    else
      var before := Run(m, calls[..|calls| - 1]);
      var (call, reply) := calls[|calls| - 1];
      Step(before, call, reply)
  }
}
