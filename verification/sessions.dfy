/**
 Door codes, the scanner sessions they open, and the devices bound to an organization.
 Each call is atomic here: the device cap is counted and then acted on.
 */
module Sessions {
  import opened Common

  const SESSION_TTL_MS: nat := 43_200_000
  const UNBIND_PAGE: nat := 100

  datatype CodeStatus = Active | Revoked | Expired

  datatype Code = Code(organization: Id, event: Id, maxDevices: nat, allowReuse: bool, expiresAt: Option<int>, status: CodeStatus)

  /** A session is known by its place in the order of creation. */
  datatype Session = Session(code: Id, organization: Id, event: Id, device: string, expiresAt: int, revoked: bool, canScan: bool)

  datatype DoorError = NoSuchCode | CodeNotActive | CodeExpired | TooManyDevices | NoSuchSession | NoSuchDevice | WrongOrganization
    | DeviceUnbound | NotAuthenticated | MayNotScan

  /** Devices are stored per organization; a stored one is active or unbound. */
  datatype Desk = Desk(codes: map<Id, Code>, sessions: seq<Session>, devices: map<(Id, string), bool>)

  /** What counts against the cap, and what revoking a code closes. */
  predicate Live(s: Session, code: Id, now: int) { s.code == code && !s.revoked && s.expiresAt > now }

  /** What a session token is accepted on; it still holds in the millisecond the session expires. */
  predicate Authenticates(s: Session, now: int) { !s.revoked && s.expiresAt >= now }

  function LiveIds(ss: seq<Session>, code: Id, now: int): (r: seq<nat>)
    ensures forall i :: i in r <==> 0 <= i < |ss| && Live(ss[i], code, now)
    ensures |r| == CountLive(ss, code, now)
  {
    if ss == [] then []
    else LiveIds(ss[..|ss| - 1], code, now) + if Live(ss[|ss| - 1], code, now) then [|ss| - 1] else []
  }

  function CountLive(ss: seq<Session>, code: Id, now: int): nat {
    if ss == [] then 0
    else CountLive(ss[..|ss| - 1], code, now) + if Live(ss[|ss| - 1], code, now) then 1 else 0
  }

  /** `find` on the live sessions of a code: the first one on this device. */
  function FirstOn(ss: seq<Session>, ids: seq<nat>, device: string): (r: Option<nat>)
    requires forall i :: 0 <= i < |ids| ==> ids[i] < |ss|
    ensures r.Some? ==> r.value in ids && r.value < |ss| && ss[r.value].device == device
    ensures r.None? ==> forall i :: i in ids ==> i < |ss| && ss[i].device != device
  {
    if ids == [] then None
    else if ss[ids[0]].device == device then Some(ids[0])
    else FirstOn(ss, ids[1..], device)
  }

  function SameDevice(ss: seq<Session>, code: Id, device: string, now: int): (r: Option<nat>)
    ensures r.Some? ==> r.value < |ss| && Live(ss[r.value], code, now) && ss[r.value].device == device
    ensures r.None? ==> forall i :: 0 <= i < |ss| && Live(ss[i], code, now) ==> ss[i].device != device
  {
    var ids := LiveIds(ss, code, now);
    assert forall i :: 0 <= i < |ids| ==> ids[i] in ids;
    FirstOn(ss, ids, device)
  }

  function Closed(ss: seq<Session>, id: nat): (r: seq<Session>)
    requires id < |ss|
    ensures |r| == |ss|
  {
    ss[id := ss[id].(revoked := true)]
  }

  function OpenRefused(d: Desk, code: Id, event: Id, organization: Id, device: string, now: int): Option<DoorError> {
    if code !in d.codes || d.codes[code].organization != organization || d.codes[code].event != event then Some(NoSuchCode)
    else if d.codes[code].status != Active then Some(CodeNotActive)
    else if d.codes[code].expiresAt.Some? && d.codes[code].expiresAt.value < now then Some(CodeExpired)
    else if SameDevice(d.sessions, code, device, now).None? && !d.codes[code].allowReuse
         && CountLive(d.sessions, code, now) >= d.codes[code].maxDevices then Some(TooManyDevices)
    else None
  }

  function NewSession(c: Code, code: Id, device: string, canScan: bool, now: int): Session {
    Session(code, c.organization, c.event, device, now + SESSION_TTL_MS, false, canScan)
  }

  function KeptSessions(ss: seq<Session>, code: Id, device: string, now: int): seq<Session> {
    var same := SameDevice(ss, code, device, now);
    if same.Some? then Closed(ss, same.value) else ss
  }

  /** Re-opening on the same device replaces its session instead of taking another slot. */
  function AfterOpen(d: Desk, code: Id, event: Id, organization: Id, device: string, canScan: bool, now: int): Desk {
    match OpenRefused(d, code, event, organization, device, now)
    case Some(CodeExpired) => d.(codes := d.codes[code := d.codes[code].(status := Expired)])
    case Some(_) => d
    case None =>
      d.(sessions := KeptSessions(d.sessions, code, device, now) + [NewSession(d.codes[code], code, device, canScan, now)])
  }

  function AfterRevokeSession(d: Desk, id: nat, organization: Id): Desk {
    if id < |d.sessions| && d.sessions[id].organization == organization then d.(sessions := Closed(d.sessions, id)) else d
  }

  /** The sessions with those of `ids` revoked. */
  function AllClosed(ss: seq<Session>, ids: seq<nat>): (r: seq<Session>)
    ensures |r| == |ss|
    ensures forall i :: 0 <= i < |ss| ==> r[i] == if i in ids then ss[i].(revoked := true) else ss[i]
  {
    seq(|ss|, i requires 0 <= i < |ss| => if i in ids then ss[i].(revoked := true) else ss[i])
  }

  predicate MayManage(d: Desk, code: Id, organization: Id) { code in d.codes && d.codes[code].organization == organization }

  /** Revoking a code closes the sessions it has live. */
  function AfterRevokeCode(d: Desk, code: Id, organization: Id, now: int): Desk {
    if MayManage(d, code, organization) then
      d.(codes := d.codes[code := d.codes[code].(status := Revoked)],
         sessions := AllClosed(d.sessions, LiveIds(d.sessions, code, now)))
    else d
  }

  function AfterBind(d: Desk, organization: Id, device: string): Desk {
    if (organization, device) in d.devices && !d.devices[(organization, device)] then d
    else d.(devices := d.devices[(organization, device) := true])
  }

  function AfterReauthorize(d: Desk, organization: Id, device: string): Desk {
    if (organization, device) in d.devices then d.(devices := d.devices[(organization, device) := true]) else d
  }

  function OnDevice(ss: seq<Session>, device: string): (r: seq<nat>)
    ensures forall i :: i in r ==> 0 <= i < |ss| && ss[i].device == device
  {
    if ss == [] then []
    else OnDevice(ss[..|ss| - 1], device) + if ss[|ss| - 1].device == device then [|ss| - 1] else []
  }

  function FirstPage(ids: seq<nat>): (r: seq<nat>)
    ensures r <= ids
  {
    if |ids| <= UNBIND_PAGE then ids else ids[..UNBIND_PAGE]
  }

  /** Of a page of sessions, those unbinding closes. */
  function Unbindable(ss: seq<Session>, ids: seq<nat>, organization: Id, now: int): (r: seq<nat>)
    ensures forall i :: i in r <==> i in ids && i < |ss| && ss[i].organization == organization && Authenticates(ss[i], now)
  {
    if ids == [] then []
    else
      var i := ids[|ids| - 1];
      Unbindable(ss, ids[..|ids| - 1], organization, now)
      + if i < |ss| && ss[i].organization == organization && Authenticates(ss[i], now) then [i] else []
  }

  lemma PageIsOnDevice(ss: seq<Session>, device: string, page: seq<nat>)
    requires page == FirstPage(OnDevice(ss, device))
    ensures forall i :: 0 <= i < |page| ==> page[i] < |ss|
  {
    assert forall i :: 0 <= i < |page| ==> page[i] == OnDevice(ss, device)[i] && OnDevice(ss, device)[i] in OnDevice(ss, device);
  }

  lemma NoneClosed(ss: seq<Session>, page: seq<nat>, organization: Id, now: int)
    ensures AllClosed(ss, Unbindable(ss, page[..0], organization, now)) == ss
  {}

  /** Whether a session is closed can be decided on the sessions as they are, or as they were. */
  lemma UnbindOneMore(ss: seq<Session>, page: seq<nat>, i: nat, organization: Id, now: int)
    requires i < |page| && page[i] < |ss|
    ensures var current := AllClosed(ss, Unbindable(ss, page[..i], organization, now));
      AllClosed(ss, Unbindable(ss, page[..i + 1], organization, now))
        == if current[page[i]].organization == organization && Authenticates(current[page[i]], now)
           then Closed(current, page[i]) else current
  {
    var id := page[i];
    assert page[..i + 1] == page[..i] + [id] && page[..i + 1][..i] == page[..i];
    var before, after := Unbindable(ss, page[..i], organization, now), Unbindable(ss, page[..i + 1], organization, now);
    assert forall k :: k in after <==> k in before || (k == id && ss[id].organization == organization && Authenticates(ss[id], now));
    hide Unbindable;
    var current, next := AllClosed(ss, before), AllClosed(ss, after);
    if current[id].organization == organization && Authenticates(current[id], now) {
      assert next == Closed(current, id);
    } else {
      assert next == current;
    }
  }

  function AfterUnbind(d: Desk, organization: Id, device: string, now: int): Desk {
    if (organization, device) in d.devices then
      d.(devices := d.devices[(organization, device) := false],
         sessions := AllClosed(d.sessions, Unbindable(d.sessions, FirstPage(OnDevice(d.sessions, device)), organization, now)))
    else d
  }

  predicate Bound(d: Desk, s: Session) {
    s.device != "" && (s.organization, s.device) in d.devices && d.devices[(s.organization, s.device)]
  }

  /** What `scan`, `confirmCouple` and `recordStaffDeny` check before anything else. */
  function GateCheck(d: Desk, id: nat, event: Id, organization: Id, now: int): Option<DoorError> {
    if id >= |d.sessions| || !Authenticates(d.sessions[id], now) || d.sessions[id].event != event then Some(NotAuthenticated)
    else if d.sessions[id].organization != organization then Some(WrongOrganization)
    else if !d.sessions[id].canScan then Some(MayNotScan)
    else if !Bound(d, d.sessions[id]) then Some(DeviceUnbound)
    else None
  }

  class ScannerService {
    var codes: map<Id, Code>
    var sessions: seq<Session>
    var devices: map<(Id, string), bool>

    ghost function View(): Desk
      reads this
    {
      Desk(codes, sessions, devices)
    }

    constructor ()
      ensures View() == Desk(map[], [], map[])
    {
      codes, sessions, devices := map[], [], map[];
    }

    method OpenSession(code: Id, event: Id, organization: Id, device: string, canScan: bool, now: int) returns (r: Result<nat, DoorError>)
      modifies this`codes, this`sessions
      ensures View() == AfterOpen(old(View()), code, event, organization, device, canScan, now)
      ensures var refused := OpenRefused(old(View()), code, event, organization, device, now);
        r == if refused.Some? then Failure(refused.value) else Success(|old(sessions)|)
    {
      if code !in codes || codes[code].organization != organization { return Failure(NoSuchCode); }
      var c := codes[code];
      if c.event != event { return Failure(NoSuchCode); }
      if c.status != Active { return Failure(CodeNotActive); }
      if c.expiresAt.Some? && c.expiresAt.value < now {
        codes := codes[code := c.(status := Expired)];
        return Failure(CodeExpired);
      }
      var live := LiveIds(sessions, code, now);
      var sameDevice := SameDevice(sessions, code, device, now);
      if sameDevice.Some? {
        sessions := Closed(sessions, sameDevice.value);
      } else if !c.allowReuse && |live| >= c.maxDevices {
        return Failure(TooManyDevices);
      }
      r := Success(|sessions|);
      sessions := sessions + [NewSession(c, code, device, canScan, now)];
    }

    method RevokeSession(id: nat, organization: Id) returns (r: Result<Session, DoorError>)
      modifies this`sessions
      ensures View() == AfterRevokeSession(old(View()), id, organization)
      ensures r.Success? <==> id < |old(sessions)| && old(sessions)[id].organization == organization
      ensures r.Success? ==> r.value == sessions[id] && r.value.revoked
    {
      if id >= |sessions| { return Failure(NoSuchSession); }
      if sessions[id].organization != organization { return Failure(WrongOrganization); }
      sessions := Closed(sessions, id);
      r := Success(sessions[id]);
    }

    method RevokeEventCode(code: Id, organization: Id, now: int) returns (r: Result<Code, DoorError>)
      modifies this`codes, this`sessions
      ensures View() == AfterRevokeCode(old(View()), code, organization, now)
      ensures r.Success? <==> MayManage(old(View()), code, organization)
    {
      if code !in codes || codes[code].organization != organization { return Failure(NoSuchCode); }
      codes := codes[code := codes[code].(status := Revoked)];
      var live := LiveIds(sessions, code, now);
      for i := 0 to |live|
        invariant codes == old(codes)[code := old(codes)[code].(status := Revoked)]
        invariant sessions == AllClosed(old(sessions), live[..i])
      {
        assert live[i] in live;
        assert live[..i + 1] == live[..i] + [live[i]];
        sessions := Closed(sessions, live[i]);
      }
      assert live[..|live|] == live;
      r := Success(codes[code]);
    }

    method BindDevice(organization: Id, device: string) returns (ok: bool)
      modifies this`devices
      ensures View() == AfterBind(old(View()), organization, device)
      ensures ok <==> devices == old(devices)[(organization, device) := true]
    {
      if (organization, device) in devices && !devices[(organization, device)] { return false; }
      devices := devices[(organization, device) := true];
      ok := true;
    }

    method ReauthorizeDevice(organization: Id, device: string) returns (ok: bool)
      modifies this`devices
      ensures View() == AfterReauthorize(old(View()), organization, device)
      ensures ok <==> (organization, device) in old(devices)
    {
      ok := (organization, device) in devices;
      if ok { devices := devices[(organization, device) := true]; }
    }

    /** Turns the device off and closes its sessions, as far as one page of them goes. */
    method UnbindDevice(organization: Id, device: string, now: int) returns (ok: bool)
      modifies this`devices, this`sessions
      ensures View() == AfterUnbind(old(View()), organization, device, now)
      ensures ok <==> (organization, device) in old(devices)
    {
      if (organization, device) !in devices { return false; }
      devices := devices[(organization, device) := false];
      var page := FirstPage(OnDevice(sessions, device));
      PageIsOnDevice(sessions, device, page);
      NoneClosed(sessions, page, organization, now);
      hide Unbindable, OnDevice, AllClosed, FirstPage;
      for i := 0 to |page|
        invariant devices == old(devices)[(organization, device) := false]
        invariant forall k :: 0 <= k < |page| ==> page[k] < |old(sessions)|
        invariant sessions == AllClosed(old(sessions), Unbindable(old(sessions), page[..i], organization, now))
      {
        var session := page[i];
        UnbindOneMore(old(sessions), page, i, organization, now);
        if sessions[session].organization == organization && Authenticates(sessions[session], now) {
          sessions := Closed(sessions, session);
        }
      }
      assert page[..|page|] == page;
      ok := true;
    }
  }

  // ----- runs of serial calls

  datatype Op =
    | CreateCode(code: Id, minted: Code)
    | Open(code: Id, event: Id, organization: Id, device: string, canScan: bool)
    | EndSession(id: nat, organization: Id)
    | RevokeCode(code: Id, organization: Id)
    | Bind(organization: Id, device: string)
    | Unbind(organization: Id, device: string)
    | Reauthorize(organization: Id, device: string)

  datatype Call = Call(op: Op, at: int)

  function AfterCreate(d: Desk, code: Id, minted: Code): Desk {
    if code in d.codes then d else d.(codes := d.codes[code := minted.(status := Active)])
  }

  function Perform(d: Desk, c: Call): Desk {
    match c.op
    case CreateCode(code, minted) => AfterCreate(d, code, minted)
    case Open(code, event, organization, device, canScan) => AfterOpen(d, code, event, organization, device, canScan, c.at)
    case EndSession(id, organization) => AfterRevokeSession(d, id, organization)
    case RevokeCode(code, organization) => AfterRevokeCode(d, code, organization, c.at)
    case Bind(organization, device) => AfterBind(d, organization, device)
    case Unbind(organization, device) => AfterUnbind(d, organization, device, c.at)
    case Reauthorize(organization, device) => AfterReauthorize(d, organization, device)
  }

  function Run(d: Desk, cs: seq<Call>): Desk
    decreases |cs|
  {
    if cs == [] then d else Perform(Run(d, cs[..|cs| - 1]), cs[|cs| - 1])
  }

  function Empty(): Desk { Desk(map[], [], map[]) }

  /** The clock never runs backwards, and has not passed `now`. */
  ghost predicate Steady(cs: seq<Call>, now: int) {
    && (forall i, j :: 0 <= i < j < |cs| ==> cs[i].at <= cs[j].at)
    && forall i :: 0 <= i < |cs| ==> cs[i].at <= now
  }

  // ----- what every call keeps

  ghost predicate OnePerDevice(ss: seq<Session>, now: int) {
    forall i, j :: 0 <= i < j < |ss| && ss[i].code == ss[j].code && ss[i].device == ss[j].device ==>
      !(Live(ss[i], ss[i].code, now) && Live(ss[j], ss[j].code, now))
  }

  ghost predicate WithinCap(d: Desk, now: int) {
    forall c | c in d.codes && !d.codes[c].allowReuse :: CountLive(d.sessions, c, now) <= d.codes[c].maxDevices
  }

  /** A session whose code was revoked is revoked, or had already reached its expiry. */
  ghost predicate RevokedClosed(d: Desk, now: int) {
    forall i | 0 <= i < |d.sessions| ::
      && d.sessions[i].code in d.codes
      && (d.codes[d.sessions[i].code].status == Revoked ==> d.sessions[i].revoked || d.sessions[i].expiresAt <= now)
  }

  ghost predicate Orderly(d: Desk, now: int) { OnePerDevice(d.sessions, now) && WithinCap(d, now) && RevokedClosed(d, now) }

  lemma {:induction false} CountFewer(ss: seq<Session>, ss': seq<Session>, code: Id, now: int, now': int)
    requires |ss| == |ss'| && forall i :: 0 <= i < |ss| && Live(ss'[i], code, now') ==> Live(ss[i], code, now)
    ensures CountLive(ss', code, now') <= CountLive(ss, code, now)
  {
    if ss != [] { CountFewer(ss[..|ss| - 1], ss'[..|ss| - 1], code, now, now'); }
  }

  lemma {:induction false} CountOneLess(ss: seq<Session>, k: nat, code: Id, now: int)
    requires k < |ss| && Live(ss[k], code, now)
    ensures CountLive(Closed(ss, k), code, now) == CountLive(ss, code, now) - 1
  {
    var n := |ss| - 1;
    if k == n {
      assert Closed(ss, k)[..n] == ss[..n];
    } else {
      assert Closed(ss, k)[..n] == Closed(ss[..n], k);
      CountOneLess(ss[..n], k, code, now);
    }
  }

  lemma CountAppend(ss: seq<Session>, s: Session, code: Id, now: int)
    ensures CountLive(ss + [s], code, now) == CountLive(ss, code, now) + if Live(s, code, now) then 1 else 0
  {
    assert (ss + [s])[..|ss|] == ss;
  }

  /** Closing sessions, and letting time pass, keeps everything. */
  lemma ClosingKeepsOrder(d: Desk, ss: seq<Session>, now: int, now': int)
    requires Orderly(d, now) && now <= now' && |ss| == |d.sessions|
    requires forall i :: 0 <= i < |ss| ==> ss[i] == d.sessions[i] || ss[i] == d.sessions[i].(revoked := true)
    ensures Orderly(d.(sessions := ss), now')
  {
    forall c | c in d.codes && !d.codes[c].allowReuse ensures CountLive(ss, c, now') <= d.codes[c].maxDevices {
      CountFewer(d.sessions, ss, c, now, now');
    }
  }

  lemma RevokingKeepsOrder(d: Desk, code: Id, organization: Id, now: int)
    requires Orderly(d, now)
    ensures Orderly(AfterRevokeCode(d, code, organization, now), now)
  {
    if MayManage(d, code, organization) {
      var ss := AllClosed(d.sessions, LiveIds(d.sessions, code, now));
      ClosingKeepsOrder(d, ss, now, now);
    }
  }

  lemma OpeningKeepsOnePerDevice(ss: seq<Session>, s: Session, now: int)
    requires OnePerDevice(ss, now) && SameDevice(ss, s.code, s.device, now).None?
    ensures OnePerDevice(ss + [s], now)
  {}

  lemma ReplacedLeavesNone(ss: seq<Session>, code: Id, device: string, now: int)
    requires OnePerDevice(ss, now) && SameDevice(ss, code, device, now).Some?
    ensures var kept := Closed(ss, SameDevice(ss, code, device, now).value);
      OnePerDevice(kept, now) && SameDevice(kept, code, device, now).None?
  {
    var k := SameDevice(ss, code, device, now).value;
    var kept := Closed(ss, k);
    forall i | 0 <= i < |kept| && Live(kept[i], code, now) ensures kept[i].device != device {
      assert i != k && ss[i] == kept[i];
    }
  }

  /** Opening a session keeps the cap: it was below it, or a session on the same device made room. */
  lemma OpeningKeepsCap(d: Desk, kept: seq<Session>, s: Session, code: Id, now: int)
    requires WithinCap(d, now) && code in d.codes && s.code == code && Live(s, code, now)
    requires forall c :: CountLive(kept, c, now) <= CountLive(d.sessions, c, now)
    requires d.codes[code].allowReuse || CountLive(kept, code, now) < d.codes[code].maxDevices
    ensures WithinCap(d.(sessions := kept + [s]), now)
  {
    forall c | c in d.codes && !d.codes[c].allowReuse ensures CountLive(kept + [s], c, now) <= d.codes[c].maxDevices {
      CountAppend(kept, s, c, now);
    }
  }

  lemma StatusKeepsOrder(d: Desk, code: Id, status: CodeStatus, now: int)
    requires Orderly(d, now) && code in d.codes && status != Revoked
    ensures Orderly(d.(codes := d.codes[code := d.codes[code].(status := status)]), now)
  {}

  lemma OpeningKeepsOrder(d: Desk, code: Id, event: Id, organization: Id, device: string, canScan: bool, now: int)
    requires Orderly(d, now)
    ensures Orderly(AfterOpen(d, code, event, organization, device, canScan, now), now)
  {
    var refused := OpenRefused(d, code, event, organization, device, now);
    if refused == Some(CodeExpired) {
      StatusKeepsOrder(d, code, Expired, now);
    } else if refused == None {
      var kept, s := KeptSessions(d.sessions, code, device, now), NewSession(d.codes[code], code, device, canScan, now);
      MakingRoom(d, code, device, now);
      hide WithinCap, OnePerDevice, RevokedClosed, KeptSessions, SameDevice, CountLive;
      OpeningKeepsOnePerDevice(kept, s, now);
      OpeningKeepsCap(d, kept, s, code, now);
      OpeningKeepsRevokedClosed(d, kept, s, now);
    }
  }

  lemma OpeningKeepsRevokedClosed(d: Desk, kept: seq<Session>, s: Session, now: int)
    requires RevokedClosed(d, now) && s.code in d.codes && d.codes[s.code].status != Revoked
    requires |kept| == |d.sessions| && forall i :: 0 <= i < |kept| ==> kept[i] == d.sessions[i] || kept[i] == d.sessions[i].(revoked := true)
    ensures RevokedClosed(d.(sessions := kept + [s]), now)
  {}

  /** Making room for a session on a device leaves no live one there, and frees a slot if there was one. */
  lemma MakingRoom(d: Desk, code: Id, device: string, now: int)
    requires Orderly(d, now)
    ensures var kept := KeptSessions(d.sessions, code, device, now);
      && |kept| == |d.sessions|
      && (forall i :: 0 <= i < |kept| ==> kept[i] == d.sessions[i] || kept[i] == d.sessions[i].(revoked := true))
      && OnePerDevice(kept, now) && SameDevice(kept, code, device, now).None?
      && (forall c :: CountLive(kept, c, now) <= CountLive(d.sessions, c, now))
      && (SameDevice(d.sessions, code, device, now).Some? ==> CountLive(kept, code, now) < CountLive(d.sessions, code, now))
  {
    var same, kept := SameDevice(d.sessions, code, device, now), KeptSessions(d.sessions, code, device, now);
    if same.Some? {
      ReplacedLeavesNone(d.sessions, code, device, now);
      CountOneLess(d.sessions, same.value, code, now);
    }
    forall c ensures CountLive(kept, c, now) <= CountLive(d.sessions, c, now) { CountFewer(d.sessions, kept, c, now, now); }
  }

  lemma CreatingKeepsOrder(d: Desk, code: Id, minted: Code, now: int)
    requires Orderly(d, now)
    ensures Orderly(AfterCreate(d, code, minted), now)
  {
    if code !in d.codes { NoneLive(d.sessions, code, now); }
  }

  lemma {:induction false} NoneLive(ss: seq<Session>, code: Id, now: int)
    requires forall i :: 0 <= i < |ss| ==> !Live(ss[i], code, now)
    ensures CountLive(ss, code, now) == 0
  {
    if ss != [] { NoneLive(ss[..|ss| - 1], code, now); }
  }

  lemma CallKeepsOrder(d: Desk, c: Call)
    requires Orderly(d, c.at)
    ensures Orderly(Perform(d, c), c.at)
  {
    match c.op
    case CreateCode(code, minted) => CreatingKeepsOrder(d, code, minted, c.at);
    case Open(code, event, organization, device, canScan) =>
      OpeningKeepsOrder(d, code, event, organization, device, canScan, c.at);
    case RevokeCode(code, organization) => RevokingKeepsOrder(d, code, organization, c.at);
    case _ => ClosingKeepsOrder(d, Perform(d, c).sessions, c.at, c.at);
  }

  lemma {:induction false} RunKeepsOrder(cs: seq<Call>, now: int)
    requires Steady(cs, now)
    ensures Orderly(Run(Empty(), cs), now)
    decreases |cs|
  {
    if cs != [] {
      var init, last := cs[..|cs| - 1], cs[|cs| - 1];
      RunKeepsOrder(init, last.at);
      CallKeepsOrder(Run(Empty(), init), last);
      ClosingKeepsOrder(Run(Empty(), cs), Run(Empty(), cs).sessions, last.at, now);
    }
  }

  /** A code never has two live sessions on one device. */
  lemma {:induction false} OneLiveSessionPerDevice(cs: seq<Call>, now: int, i: nat, j: nat, code: Id)
    requires Steady(cs, now)
    requires var ss := Run(Empty(), cs).sessions;
      i < |ss| && j < |ss| && Live(ss[i], code, now) && Live(ss[j], code, now) && ss[i].device == ss[j].device
    ensures i == j
  {
    RunKeepsOrder(cs, now);
  }

  /** A code that allows no reuse never has more live sessions than devices allowed. */
  lemma DeviceCapHolds(cs: seq<Call>, now: int, code: Id)
    requires Steady(cs, now)
    ensures var d := Run(Empty(), cs);
      code in d.codes && !d.codes[code].allowReuse ==> CountLive(d.sessions, code, now) <= d.codes[code].maxDevices
  {
    RunKeepsOrder(cs, now);
  }

  // ----- revoking a code

  lemma RevokedStaysRevoked(d: Desk, c: Call, code: Id)
    requires code in d.codes && d.codes[code].status == Revoked
    ensures code in Perform(d, c).codes && Perform(d, c).codes[code].status == Revoked
  {}

  lemma {:induction false} RevokedForGood(d: Desk, cs: seq<Call>, code: Id)
    requires code in d.codes && d.codes[code].status == Revoked
    ensures code in Run(d, cs).codes && Run(d, cs).codes[code].status == Revoked
    decreases |cs|
  {
    if cs != [] {
      RevokedForGood(d, cs[..|cs| - 1], code);
      RevokedStaysRevoked(Run(d, cs[..|cs| - 1]), cs[|cs| - 1], code);
    }
  }

  lemma {:induction false} RunConcat(d: Desk, cs: seq<Call>, more: seq<Call>)
    ensures Run(d, cs + more) == Run(Run(d, cs), more)
    decreases |more|
  {
    if more == [] {
      assert cs + more == cs;
    } else {
      assert (cs + more)[..|cs + more| - 1] == cs + more[..|more| - 1];
      RunConcat(d, cs, more[..|more| - 1]);
    }
  }

  /** Once a code is revoked, whatever happens later, it never has a live session again. */
  lemma RevokedCodeStaysClosed(before: seq<Call>, revocation: Call, later: seq<Call>, now: int)
    requires revocation.op.RevokeCode? && Steady(before + [revocation] + later, now)
    requires MayManage(Run(Empty(), before), revocation.op.code, revocation.op.organization)
    ensures CountLive(Run(Empty(), before + [revocation] + later).sessions, revocation.op.code, now) == 0
  {
    var d, code := Run(Empty(), before), revocation.op.code;
    assert (before + [revocation])[..|before|] == before;
    RunConcat(Empty(), before + [revocation], later);
    RevokedForGood(Run(Empty(), before + [revocation]), later, code);
    RunKeepsOrder(before + [revocation] + later, now);
    NoneLive(Run(Empty(), before + [revocation] + later).sessions, code, now);
  }

  /**
   The instant of a revocation is the exception: a session of the code is still accepted right after
   it if and only if it was, and expires in that very millisecond.
   */
  lemma AcceptedAfterRevocationIff(d: Desk, code: Id, organization: Id, now: int, i: nat)
    requires MayManage(d, code, organization) && i < |d.sessions| && d.sessions[i].code == code
    ensures Authenticates(AfterRevokeCode(d, code, organization, now).sessions[i], now)
       <==> Authenticates(d.sessions[i], now) && d.sessions[i].expiresAt == now
  {
    assert i in LiveIds(d.sessions, code, now) <==> Live(d.sessions[i], code, now);
  }

  // ----- unbinding a device

  predicate Off(d: Desk, organization: Id, device: string) {
    (organization, device) in d.devices && !d.devices[(organization, device)]
  }

  lemma {:induction false} OffUntilReauthorized(d: Desk, cs: seq<Call>, organization: Id, device: string)
    requires Off(d, organization, device)
    requires forall i :: 0 <= i < |cs| ==> cs[i].op != Reauthorize(organization, device)
    ensures Off(Run(d, cs), organization, device)
    decreases |cs|
  {
    if cs != [] { OffUntilReauthorized(d, cs[..|cs| - 1], organization, device); }
  }

  /** After a device is unbound every scan, couple confirmation and denial on it is refused until it is reauthorized. */
  lemma UnboundDeviceStaysOut(before: seq<Call>, unbinding: Call, later: seq<Call>, id: nat, event: Id, organization: Id, now: int)
    requires unbinding.op.Unbind? && (unbinding.op.organization, unbinding.op.device) in Run(Empty(), before).devices
    requires forall i :: 0 <= i < |later| ==> later[i].op != Reauthorize(unbinding.op.organization, unbinding.op.device)
    requires var ss := Run(Empty(), before + [unbinding] + later).sessions;
      id < |ss| && ss[id].organization == unbinding.op.organization && ss[id].device == unbinding.op.device
    ensures GateCheck(Run(Empty(), before + [unbinding] + later), id, event, organization, now) != None
  {
    var all := before + [unbinding];
    assert all[..|before|] == before;
    assert Off(Run(Empty(), all), unbinding.op.organization, unbinding.op.device);
    RunConcat(Empty(), all, later);
    OffUntilReauthorized(Run(Empty(), all), later, unbinding.op.organization, unbinding.op.device);
  }

  /** Reauthorizing is what lets the device back in; binding it again is refused. */
  lemma OnlyReauthorizingLetsBackIn(d: Desk, organization: Id, device: string)
    requires Off(d, organization, device)
    ensures Off(AfterBind(d, organization, device), organization, device)
    ensures !Off(AfterReauthorize(d, organization, device), organization, device)
  {}

  /** How many of the sessions are on this device. */
  function CountOn(ss: seq<Session>, device: string): nat {
    if ss == [] then 0 else CountOn(ss[..|ss| - 1], device) + if ss[|ss| - 1].device == device then 1 else 0
  }

  lemma {:induction false} OnDeviceCount(ss: seq<Session>, device: string)
    ensures |OnDevice(ss, device)| == CountOn(ss, device)
  {
    if ss != [] { OnDeviceCount(ss[..|ss| - 1], device); }
  }

  /** The sessions of a device are listed in the order of their creation. */
  lemma {:induction false} OnDeviceAt(ss: seq<Session>, device: string, i: nat)
    requires i < |ss| && ss[i].device == device
    ensures CountOn(ss[..i], device) < |OnDevice(ss, device)| && OnDevice(ss, device)[CountOn(ss[..i], device)] == i
  {
    var n := |ss| - 1;
    OnDeviceCount(ss[..n], device);
    if i < n {
      OnDeviceAt(ss[..n], device, i);
      assert ss[..n][..i] == ss[..i];
    }
  }

  lemma {:induction false} OnDeviceDistinct(ss: seq<Session>, device: string)
    ensures Distinct(OnDevice(ss, device))
  {
    if ss != [] {
      OnDeviceDistinct(ss[..|ss| - 1], device);
      var before := OnDevice(ss[..|ss| - 1], device);
      assert forall k :: 0 <= k < |before| ==> before[k] in before;
    }
  }

  lemma FirstPageIff(ss: seq<Session>, device: string, i: nat)
    requires i < |ss|
    ensures i in FirstPage(OnDevice(ss, device)) <==> ss[i].device == device && CountOn(ss[..i], device) < 100
  {
    var all, page := OnDevice(ss, device), FirstPage(OnDevice(ss, device));
    if i in page {
      var k :| 0 <= k < |page| && page[k] == i;
      assert all[k] == i && i in all;
      OnDeviceAt(ss, device, i);
      OnDeviceDistinct(ss, device);
      assert k == CountOn(ss[..i], device);
    }
    if ss[i].device == device { OnDeviceAt(ss, device, i); }
    if ss[i].device == device && CountOn(ss[..i], device) < 100 { assert page[CountOn(ss[..i], device)] == i; }
  }

  /**
   Unbinding also closes the sessions of the device, but only those of the caller's organization that
   have fewer than a hundred sessions of the device before them.
   */
  lemma ClosedByUnbindingIff(d: Desk, organization: Id, device: string, now: int, i: nat)
    requires (organization, device) in d.devices && i < |d.sessions|
    requires Authenticates(d.sessions[i], now)
    ensures !Authenticates(AfterUnbind(d, organization, device, now).sessions[i], now)
       <==> d.sessions[i].organization == organization && d.sessions[i].device == device && CountOn(d.sessions[..i], device) < 100
  {
    var page := FirstPage(OnDevice(d.sessions, device));
    FirstPageIff(d.sessions, device, i);
    assert i in Unbindable(d.sessions, page, organization, now) <==> i in page && d.sessions[i].organization == organization;
  }

  // ----- who gets past the gate

  /** Exactly an unrevoked session that has not run out, of this event and organization, that may scan, on a device that is on. */
  lemma GateOpensIff(d: Desk, id: nat, event: Id, organization: Id, now: int)
    ensures GateCheck(d, id, event, organization, now) == None
       <==> && id < |d.sessions|
            && var s := d.sessions[id];
            && !s.revoked && now <= s.expiresAt && s.event == event && s.organization == organization && s.canScan
            && s.device != "" && (organization, s.device) in d.devices && d.devices[(organization, s.device)]
  {}

  // ----- what each call is good for

  lemma RunSnoc(d: Desk, cs: seq<Call>, c: Call)
    ensures Run(d, []) == d && Run(d, cs + [c]) == Perform(Run(d, cs), c)
  {
    assert (cs + [c])[..|cs|] == cs;
  }

  /** A session is opened exactly under a code of this organization and event that is active and has not run out, and has room. */
  lemma OpensIff(d: Desk, code: Id, event: Id, organization: Id, device: string, now: int)
    ensures OpenRefused(d, code, event, organization, device, now) == None
       <==> && code in d.codes
            && var c := d.codes[code];
            && c.organization == organization && c.event == event && c.status == Active
            && (c.expiresAt.Some? ==> now <= c.expiresAt.value)
            && (c.allowReuse || CountLive(d.sessions, code, now) < c.maxDevices
                || exists i :: 0 <= i < |d.sessions| && d.sessions[i].device == device && Live(d.sessions[i], code, now))
  {}

  /** The session it opens gets a bound device past the gate for twelve hours, and not longer. */
  lemma OpenedSessionWorks(before: seq<Call>, code: Id, event: Id, organization: Id, device: string, now: int, t: int)
    requires var d := Run(Empty(), before);
      && OpenRefused(d, code, event, organization, device, now) == None
      && device != "" && (organization, device) in d.devices && d.devices[(organization, device)]
    ensures var d, d' := Run(Empty(), before), Run(Empty(), before + [Call(Open(code, event, organization, device, true), now)]);
      && |d'.sessions| == |d.sessions| + 1
      && (GateCheck(d', |d.sessions|, event, organization, t) == None <==> t <= now + 43_200_000)
      && GateCheck(Run(Empty(), before + [Call(Open(code, event, organization, device, false), now)]), |d.sessions|, event, organization, t) != None
  {
    RunSnoc(Empty(), before, Call(Open(code, event, organization, device, true), now));
    RunSnoc(Empty(), before, Call(Open(code, event, organization, device, false), now));
  }

  /** A new code opens a session as long as it allows a device at all. */
  lemma CreatedCodeOpens(before: seq<Call>, code: Id, minted: Code, device: string, at: int, now: int)
    requires code !in Run(Empty(), before).codes && CountLive(Run(Empty(), before).sessions, code, now) == 0
    requires (minted.expiresAt.Some? ==> now <= minted.expiresAt.value) && minted.maxDevices > 0
    ensures OpenRefused(Run(Empty(), before + [Call(CreateCode(code, minted), at)]), code, minted.event, minted.organization, device, now) == None
  {
    RunSnoc(Empty(), before, Call(CreateCode(code, minted), at));
  }

  /** An ended session is out; the other sessions stay as they are. */
  lemma EndedSessionIsOut(before: seq<Call>, id: nat, organization: Id, at: int, now: int)
    requires id < |Run(Empty(), before).sessions| && Run(Empty(), before).sessions[id].organization == organization
    ensures var d, d' := Run(Empty(), before), Run(Empty(), before + [Call(EndSession(id, organization), at)]);
      && (forall event :: GateCheck(d', id, event, organization, now) != None)
      && |d'.sessions| == |d.sessions| && (forall i | 0 <= i < |d.sessions| && i != id :: d'.sessions[i] == d.sessions[i])
  {
    RunSnoc(Empty(), before, Call(EndSession(id, organization), at));
  }

  /** Binding turns on every device but one that was turned off, reauthorizing every stored one; neither touches another device. */
  lemma DeviceIsOnIff(before: seq<Call>, organization: Id, device: string, at: int)
    ensures var d := Run(Empty(), before);
      var bound := Run(Empty(), before + [Call(Bind(organization, device), at)]).devices;
      var reauthorized := Run(Empty(), before + [Call(Reauthorize(organization, device), at)]).devices;
      && ((organization, device) in bound && (bound[(organization, device)] <==> !Off(d, organization, device)))
      && ((organization, device) in reauthorized <==> (organization, device) in d.devices)
      && ((organization, device) in reauthorized ==> reauthorized[(organization, device)])
      && bound - {(organization, device)} == d.devices - {(organization, device)} == reauthorized - {(organization, device)}
  {
    RunSnoc(Empty(), before, Call(Bind(organization, device), at));
    RunSnoc(Empty(), before, Call(Reauthorize(organization, device), at));
  }
}
