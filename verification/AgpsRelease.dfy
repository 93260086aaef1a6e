/** LocEngReleaseATL of gps/libloc_api_50001/loc_eng.cpp over the three machines it tries in turn,
    and what the modem hears about the handle. */
module AgpsRelease {
  import opened ListSpec
  import opened AgpsSpec
  import opened AgpsInvariants
  import opened AgpsMachine
  import opened AgpsService

  /** What leaves the process: calls on the LocEngAdapter and messages to the daemon. */
  datatype Message =
    | AtlCloseStatus(id: Handle, closed: bool)
    | AtlOpenStatus(id: Handle, granted: bool)
    | DataConn(sender: Client, status: Status)
    | CloseDataCall
    | RequestAtl(handle: Option<Handle>)

  /** The bodies of the four notifyRsrcStatus overrides and of informStatus. */
  function Messages(e: Effect): seq<Message> {
    match e
    case Told(c, status, _) =>
      if status.RsrcGranted? then
        if c.kind.Atl? || c.kind.Ds? then [AtlOpenStatus(c.id, true)] else [DataConn(c, status)]
      else if status.RsrcDenied? then
        if c.kind.Atl? then [AtlOpenStatus(c.id, false)]
        else if c.kind.Ds? then [RequestAtl(Some(c.id))] else [DataConn(c, status)]
      else if status.RsrcReleased? then
        if c.kind.Atl? then [AtlCloseStatus(c.id, true)]
        else if c.kind.Ds? then [CloseDataCall] else [DataConn(c, status)]
      else if status.RsrcUnsubscribe? then
        if c.kind.Atl? || c.kind.Ds? then [AtlCloseStatus(c.id, true)]
        else if c.kind.Bit? then [DataConn(c, status)] else []
      else []
    case Deactivated(c) => if c.kind.Ds? then [AtlCloseStatus(c.id, true)] else []
    case FellBack(handle) => [RequestAtl(handle)]
    case _ => []
  }

  /** Message by message, on what it is sent: the modem hears that a handle is open or refused, a daemon client what
      came of its request, and only a data-call subscriber has the call closed or ATL requested. */
  lemma SaidBy(e: Effect, msg: Message)
    ensures msg in Messages(e) <==>
      if msg.AtlOpenStatus? then
        && e.Told? && e.client.id == msg.id
        && (if msg.granted then e.status.RsrcGranted? && (e.client.kind.Atl? || e.client.kind.Ds?)
            else e.status.RsrcDenied? && e.client.kind.Atl?)
      else if msg.AtlCloseStatus? then
        && msg.closed && (e.Told? || e.Deactivated?) && e.client.id == msg.id
        && (if e.Deactivated? then e.client.kind.Ds?
            else (e.status.RsrcUnsubscribe? && (e.client.kind.Atl? || e.client.kind.Ds?))
                 || (e.status.RsrcReleased? && e.client.kind.Atl?))
      else if msg.DataConn? then
        && e.Told? && e.client == msg.sender && e.status == msg.status
        && (if e.status.RsrcUnsubscribe? then e.client.kind.Bit?
            else (e.status.RsrcGranted? || e.status.RsrcDenied? || e.status.RsrcReleased?)
                 && (e.client.kind.Bit? || e.client.kind.Wifi?))
      else if msg.CloseDataCall? then e.Told? && e.status.RsrcReleased? && e.client.kind.Ds?
      else
        || (e.FellBack? && msg.handle == e.handle)
        || (e.Told? && e.status.RsrcDenied? && e.client.kind.Ds? && msg.handle == Some(e.client.id))
    ensures |Messages(e)| <= 1
  {
  }

  /** How often the modem has been told that `id` is closed. */
  function Closes(t: seq<Effect>, id: Handle): nat {
    if t == [] then 0
    else
      Closes(t[..|t| - 1], id) +
      if exists closed :: AtlCloseStatus(id, closed) in Messages(t[|t| - 1]) then 1 else 0
  }

  predicate TellsModem(k: Kind) {
    k.Atl? || k.Ds?
  }

  /** A release asks by handle alone: a bare Atl or Ds client matches whatever the entry's kind,
      unless that entry is a Bit one without an IPv4 address. */
  function Asker(kind: Kind, id: Handle): Client {
    Client(kind, id, "")
  }

  lemma {:induction false} ClosesLog(t: seq<Effect>, e: Effect, id: Handle)
    ensures Closes(t + [e], id) ==
            Closes(t, id) + if exists closed :: AtlCloseStatus(id, closed) in Messages(e) then 1 else 0
  {
    Grown(t, e);
  }

  /** Nothing is said of any handle by an effect without an AtlCloseStatus. */
  lemma {:induction false} ClosesSilent(t: seq<Effect>, e: Effect, id: Handle)
    requires e.Asked? || e.Suppressed? || e.RetryTimer? || e.FellBack? || e.Removed?
    ensures Closes(t + [e], id) == Closes(t, id)
  {
    ClosesLog(t, e, id);
  }

  /** Telling an entry that it is unsubscribed closes its own handle, if the kind has one. */
  lemma {:induction false} ClosesTold(t: seq<Effect>, c: Client, listed: bool, id: Handle)
    ensures Closes(t + [Told(c, RsrcUnsubscribe, listed)], id) ==
            Closes(t, id) + if id == c.id && TellsModem(c.kind) then 1 else 0
  {
    var e := Told(c, RsrcUnsubscribe, listed);
    ClosesLog(t, e, id);
    if TellsModem(c.kind) {
      assert AtlCloseStatus(c.id, true) in Messages(e);
    }
  }

  lemma {:induction false} SendClosesNothing(m: Machine, action: Action, reply: Reply, id: Handle)
    ensures Closes(Send(m, action, reply).0.trace, id) == Closes(m.trace, id)
  {
    ClosesSilent(m.trace, Asked(action), id);
    ClosesSilent(m.trace, Suppressed(action), id);
    var asked := m.trace + [Asked(action)];
    ClosesSilent(asked, RetryTimer, id);
    ClosesSilent(asked, FellBack(FirstActive(m.subs)), id);
  }

  /** What leaving adds to the trace: one effect for an entry that waits, two for one that is deleted. */
  lemma LeaveTrace(m: Machine, c: Client, k: nat)
    requires Distinct(m.subs) && k == FirstMatch(m.subs, To(c)) && k < |m.subs|
    ensures var d := m.subs[k].client;
      Leave(m, k).trace ==
        if d.WaitsForClose() then m.trace + [Deactivated(d)]
        else m.trace + [Told(d, RsrcUnsubscribe, true)] + [Removed(d)]
    ensures Leave(m, k).state == m.state
  {
    var d := m.subs[k].client;
    if !d.WaitsForClose() {
      var n := Notification(To(d), RsrcUnsubscribe, true);
      forall j | 0 <= j < |m.subs| ensures Reached(n)(m.subs[j]) <==> j == k {
        OnlyOneMatches(m.subs, c, k, j);
      }
      FilterOnly(m.subs, Reached(n), k);
      NotifiesEachOnce(m, n);
      assert Deliveries([m.subs[k]], n) == [Told(d, RsrcUnsubscribe, true)] + [Removed(d)];
    }
  }

  lemma {:induction false} LeaveCloses(m: Machine, c: Client, k: nat, id: Handle)
    requires Distinct(m.subs) && k == FirstMatch(m.subs, To(c)) && k < |m.subs|
    ensures var d := m.subs[k].client;
      Closes(Leave(m, k).trace, id) == Closes(m.trace, id) + if id == d.id && TellsModem(d.kind) then 1 else 0
  {
    LeaveTrace(m, c, k);
    var d := m.subs[k].client;
    if d.WaitsForClose() {
      ClosesLog(m.trace, Deactivated(d), id);
      if d.kind.Ds? {
        assert AtlCloseStatus(d.id, true) in Messages(Deactivated(d));
      }
    } else {
      ClosesTold(m.trace, d, true, id);
      ClosesSilent(m.trace + [Told(d, RsrcUnsubscribe, true)], Removed(d), id);
    }
  }

  lemma {:induction false} LeftCloses(m: Machine, c: Client, k: nat, reply: Reply, id: Handle)
    requires Distinct(m.subs) && k == FirstMatch(m.subs, To(c)) && k < |m.subs| && !m.state.Released?
    ensures var d := m.subs[k].client;
      Closes(OnUnsubscribe(m, k, reply).trace, id) ==
        Closes(m.trace, id) + if id == d.id && TellsModem(d.kind) then 1 else 0
  {
    LeftOrSent(m, k, reply);
    LeaveCloses(m, c, k, id);
    SendClosesNothing(Leave(m, k), Release, reply, id);
  }

  /** Unsubscribing in any state of either machine, reachable or not, closes the entry's handle once. */
  lemma {:induction false} UnsubscribeCloses(m: Machine, c: Client, reply: Reply, id: Handle)
    requires Distinct(m.subs)
    ensures var k := FirstMatch(m.subs, To(c));
      var r := UnsubscribeRsrc(m, c, reply);
      if k < |m.subs| then
        Closes(r.trace, id) ==
          Closes(m.trace, id) + if id == c.id && TellsModem(m.subs[k].client.kind) then 1 else 0
      else r == m
  {
    var k := FirstMatch(m.subs, To(c));
    if k < |m.subs| {
      var d := m.subs[k].client;
      assert d.id == c.id;
      if m.state.Released? {
        ClosesTold(m.trace, d, true, id);
      } else {
        LeftCloses(m, c, k, reply, id);
      }
    }
  }

  /** The part of loc_eng_data_s_type that LocEngReleaseATL uses.  A machine that was not created is
      None; `direct` holds the atlCloseStatus calls made past the machines. */
  datatype Engine = Engine(agnss: Option<Machine>, internet: Option<Machine>, dsNif: Option<Machine>,
                           direct: seq<Handle>)

  function Find(m: Option<Machine>, kind: Kind, id: Handle): Option<Entry> {
    if m.None? then None
    else
      var k := FirstMatch(m.value.subs, To(Asker(kind, id)));
      if k < |m.value.subs| then Some(m.value.subs[k]) else None
  }

  function Try(m: Option<Machine>, kind: Kind, id: Handle, reply: Reply): Option<Machine> {
    if m.None? then None else Some(UnsubscribeRsrc(m.value, Asker(kind, id), reply))
  }

  /** LocEngReleaseATL::proc. */
  function AfterRelease(e: Engine, id: Handle, reply: Reply): Engine {
    if Find(e.agnss, Atl, id).Some? then e.(agnss := Try(e.agnss, Atl, id, reply))
    else if Find(e.internet, Atl, id).Some? then e.(internet := Try(e.internet, Atl, id, reply))
    else if Find(e.dsNif, Ds, id).Some? then e.(dsNif := Try(e.dsNif, Ds, id, reply))
    else e.(direct := e.direct + [id])
  }

  /** The entry a release of `id` finds, in the order the machines are tried. */
  function Holder(e: Engine, id: Handle): Option<Entry> {
    if Find(e.agnss, Atl, id).Some? then Find(e.agnss, Atl, id)
    else if Find(e.internet, Atl, id).Some? then Find(e.internet, Atl, id)
    else Find(e.dsNif, Ds, id)
  }

  function ClosesOf(m: Option<Machine>, id: Handle): nat {
    if m.None? then 0 else Closes(m.value.trace, id)
  }

  /** Every atlCloseStatus for `id` so far. */
  function AllCloses(e: Engine, id: Handle): nat {
    ClosesOf(e.agnss, id) + ClosesOf(e.internet, id) + ClosesOf(e.dsNif, id) + multiset(e.direct)[id]
  }

  predicate Valid(e: Engine) {
    forall m :: m in {e.agnss, e.internet, e.dsNif} && m.Some? ==> Distinct(m.value.subs)
  }

  lemma TryCloses(m: Option<Machine>, kind: Kind, id: Handle, reply: Reply, h: Handle)
    requires Find(m, kind, id).Some? && Distinct(m.value.subs)
    ensures ClosesOf(Try(m, kind, id, reply), h) ==
            ClosesOf(m, h) + if h == id && TellsModem(Find(m, kind, id).value.client.kind) then 1 else 0
  {
    UnsubscribeCloses(m.value, Asker(kind, id), reply, h);
  }

  /** Releasing a handle closes it exactly once, whichever machine holds it and in whatever state, and
      also when none does, if and only if the entry found, if any, is of a kind that reports to the
      modem.  No other handle is closed. */
  lemma ReleaseClosesOnce(e: Engine, id: Handle, reply: Reply, h: Handle)
    requires Valid(e)
    ensures AllCloses(AfterRelease(e, id, reply), h) ==
            AllCloses(e, h) +
            if h == id && (Holder(e, id).None? || TellsModem(Holder(e, id).value.client.kind)) then 1 else 0
  {
    if Find(e.agnss, Atl, id).Some? {
      TryCloses(e.agnss, Atl, id, reply, h);
    } else if Find(e.internet, Atl, id).Some? {
      TryCloses(e.internet, Atl, id, reply, h);
    } else if Find(e.dsNif, Ds, id).Some? {
      TryCloses(e.dsNif, Ds, id, reply, h);
    }
  }

  /** At most one machine changes, and it is the first that has an entry for the handle; the modem is answered past
      the machines exactly if none has. */
  lemma ReleaseTouchesOne(e: Engine, id: Handle, reply: Reply)
    ensures var r := AfterRelease(e, id, reply);
      && (r.agnss != e.agnss ==> Find(e.agnss, Atl, id).Some?)
      && (r.internet != e.internet ==> Find(e.agnss, Atl, id).None? && Find(e.internet, Atl, id).Some?)
      && (r.dsNif != e.dsNif ==>
            Find(e.agnss, Atl, id).None? && Find(e.internet, Atl, id).None? && Find(e.dsNif, Ds, id).Some?)
      && (r.direct == e.direct || r.direct == e.direct + [id])
      && (r.direct != e.direct <==>
            Find(e.agnss, Atl, id).None? && Find(e.internet, Atl, id).None? && Find(e.dsNif, Ds, id).None?)
  {
    assert |e.direct + [id]| == |e.direct| + 1;
  }

  /** The condition is needed: after a Bit client has subscribed, a release of the same number, if the
      number is an address, is swallowed by it. */
  lemma SharedHandleIsSwallowed(c: Client, asked: Reply, reply: Reply)
    requires c.kind.Bit? && c.id != INADDR_NONE
    ensures var m := Run(Fresh(false, false), [(Subscribe(c), asked)]);
      var e := Engine(Some(m), None, None, []);
      && Valid(e) && m.state.Pending? && m.subs == [Entry(c, false)]
      && AllCloses(AfterRelease(e, c.id, reply), c.id) == AllCloses(e, c.id)
  {
    var m := Run(Fresh(false, false), [(Subscribe(c), asked)]);
    RunNext(Fresh(false, false), [], Subscribe(c), asked);
    assert [] + [(Subscribe(c), asked)] == [(Subscribe(c), asked)];
    Subscribed(c, false, false, asked);
    BitSwallows(m, c, reply);
  }

  lemma BitSwallows(m: Machine, c: Client, reply: Reply)
    requires c.kind.Bit? && c.id != INADDR_NONE && m.subs == [Entry(c, false)]
    ensures var e := Engine(Some(m), None, None, []);
      Valid(e) && AllCloses(AfterRelease(e, c.id, reply), c.id) == AllCloses(e, c.id)
  {
    var e := Engine(Some(m), None, None, []);
    IndexOfIs(m.subs, Matching(To(Asker(Atl, c.id))), 0);
    ReleaseClosesOnce(e, c.id, reply, c.id);
  }

  class LocEng {
    const agnss: AgpsStateMachine?
    const internet: AgpsStateMachine?
    const dsNif: AgpsStateMachine?
    ghost var direct: seq<Handle>

    constructor (agnss: AgpsStateMachine?, internet: AgpsStateMachine?, dsNif: AgpsStateMachine?)
      ensures this.agnss == agnss && this.internet == internet && this.dsNif == dsNif && direct == []
    {
      this.agnss, this.internet, this.dsNif := agnss, internet, dsNif;
      direct := [];
    }

    static ghost function ValueOf(sm: AgpsStateMachine?): Option<Machine>
      reads if sm == null then {} else {sm}
    {
      if sm == null then None else Some(sm.Value())
    }

    ghost function Value(): Engine
      reads this, if agnss == null then {} else {agnss}, if internet == null then {} else {internet},
            if dsNif == null then {} else {dsNif}
    {
      Engine(ValueOf(agnss), ValueOf(internet), ValueOf(dsNif), direct)
    }

    predicate Separate() {
      && (agnss != null ==> agnss != internet && agnss != dsNif)
      && (internet != null ==> internet != dsNif)
    }

    method ReleaseAtl(id: Handle, reply: Reply)
      requires Separate()
      modifies this, if agnss == null then {} else {agnss}, if internet == null then {} else {internet},
               if dsNif == null then {} else {dsNif}
      ensures Value() == AfterRelease(old(Value()), id, reply)
    {
      if agnss != null {
        var found := agnss.UnsubscribeRsrc(Asker(Atl, id), reply);
        if found {
          assert Value() == old(Value()).(agnss := ValueOf(agnss));
          return;
        }
        assert agnss.Value() == old(agnss.Value());
      }
      assert Value() == old(Value()) && Find(ValueOf(agnss), Atl, id).None?;
      if internet != null {
        var found := internet.UnsubscribeRsrc(Asker(Atl, id), reply);
        if found {
          assert Value() == old(Value()).(internet := ValueOf(internet));
          return;
        }
        assert internet.Value() == old(internet.Value());
      }
      assert Value() == old(Value()) && Find(ValueOf(internet), Atl, id).None?;
      if dsNif != null {
        var found := dsNif.UnsubscribeRsrc(Asker(Ds, id), reply);
        if found {
          assert Value() == old(Value()).(dsNif := ValueOf(dsNif));
          return;
        }
        assert dsNif.Value() == old(dsNif.Value());
      }
      direct := direct + [id];
    }
  }
}
