/** Pairing, tokens and revocation on the server: `apps/server/src/auth/pairing.ts` and
    `apps/server/src/auth/tokens.ts` over the rows of the database.

    A call that awaits (the scrypt check of a claim, the hash of an approval, the signature of a
    session) is two steps, and any other step may come between them. */
module Pairing {
  import opened Text

  /** Every random identifier, password and refresh token is the next number nobody has seen. */
  type Id = nat

  datatype Status = Pending | Active | Revoked

  datatype Mode = Full | StreamOnly | NoAccess

  datatype Permission = Permission(folder: Id, mode: Mode)

  datatype Refresh = Refresh(raw: Id, expiresAt: int)

  /** A row of `devices`; a hash stands for what it was made of. */
  datatype Device = Device(status: Status, tokenVersion: nat, dav: Option<Id>, refresh: Option<Refresh>, createdAt: int)

  /** A row of `pairing_tokens`, found by its unique code. */
  datatype Code = Code(
    id: Id, secret: Id, failed: nat, locked: bool, expiresAt: int,
    consumedAt: Option<int>, consumedBy: Option<Id>, permissions: seq<Permission>)

  datatype Stash = Stash(password: Id, at: int)

  datatype Access = Access(device: Id, version: nat, expiresAt: int)

  datatype Signature = Signature(device: Id, file: Id, expiresAt: int, version: nat)

  datatype Ticket = Ticket(device: Id, expiresAt: int, signature: Signature)

  datatype RefreshToken = RefreshToken(device: Id, raw: Id)

  datatype Call =
    /** `claim`, at the scrypt check, with the row as it was read. */
    | Verifying(code: string, row: Id, failed: nat, matches: bool, at: int)
    /** `approve`, at the scrypt hash. */
    | Hashing(device: Id, password: Id)
    /** `issueSession`, at the signature; for a poll, with the WebDAV password it took. */
    | Signing(access: Access, collected: Option<Id>)

  /** What happened so far: kept for the statements, read by nothing. */
  datatype Record = Record(
    access: set<Access>,
    tickets: set<Ticket>,
    paired: map<Id, Origin>,
    handedOut: seq<Handed>,
    chosen: set<(Id, Id)>,
    wrong: map<Id, nat>)

  datatype Origin = Origin(row: Id, permissions: seq<Permission>)

  datatype Handed = Handed(device: Id, password: Id)

  datatype State = State(
    devices: map<Id, Device>,
    codes: map<string, Code>,
    folders: set<Id>,
    grants: map<(Id, Id), Mode>,
    stash: map<Id, Stash>,
    calls: map<nat, Call>,
    next: Id,
    record: Record)

  datatype Error =
    | PairingInvalid | PairingLocked | PairingConsumed | PairingExpired
    | NotFound | Unauthenticated | DevicePending | DeviceRevoked | TokenExpired | TokenRevoked
    | UniqueViolation

  datatype Reply =
    | Awaiting
    | Done
    | Failed(error: Error)
    | Claimed(device: Id)
    | StillPending
    | Rejected
    | Issued(access: Access, refresh: RefreshToken, password: Option<Id>)

  datatype Answer = Answer(state: State, reply: Reply)

  const MAX_FAILED_ATTEMPTS: nat := 5
  const PENDING_GRACE_MS: int := 60 * 60 * 1000
  const REJECTED_GRACE_MS: int := 15 * 60 * 1000
  const DAV_STASH_TTL_MS: int := 60 * 60 * 1000
  const DAY_MS: int := 24 * 60 * 60 * 1000
  const MINT_ATTEMPTS: nat := 20

  datatype Event =
    | Mint(tries: seq<string>, secret: Id, permissions: seq<Permission>, now: int, expiresAt: int)
    | ClaimBegins(call: nat, code: string, given: Option<Id>, now: int)
    | ClaimEnds(call: nat)
    | PollBegins(call: nat, device: Id, genuine: bool, now: int, expiresAt: int)
    | RefreshBegins(call: nat, token: RefreshToken, now: int, expiresAt: int)
    | SessionIssued(call: nat, refreshExpiresAt: int)
    | ApproveBegins(call: nat, device: Id)
    | ApproveEnds(call: nat, now: int)
    | Reject(device: Id)
    | Revoke(device: Id)
    | Delete(device: Id)
    | Prune(now: int)
    | Play(device: Id, file: Id, expiresAt: int)
    | AddFolder
    | DeleteFolder(folder: Id)
    | SetPermissions(device: Id, permissions: seq<Permission>)
    | Restart

  // ─── codes ───────────────────────────────────────────────────────────────────

  predicate Spent(row: Code, now: int) {
    (row.consumedAt.Some? && row.consumedAt.value < now - DAY_MS) || row.expiresAt < now - DAY_MS
  }

  function Unspent(codes: map<string, Code>, now: int): map<string, Code> {
    map code | code in codes && !Spent(codes[code], now) :: codes[code]
  }

  function FirstFree(tries: seq<string>, codes: map<string, Code>): (free: Option<string>)
    ensures free.Some? ==> free.value in tries && free.value !in codes
    ensures free.None? ==> forall code | code in tries :: code in codes
  {
    if tries == [] then None
    else if tries[0] !in codes then Some(tries[0])
    else FirstFree(tries[1..], codes)
  }

  function MintOn(s: State, tries: seq<string>, secret: Id, permissions: seq<Permission>, now: int, expiresAt: int): Answer {
    var codes := Unspent(s.codes, now);
    match FirstFree(tries, codes)
    case None => Answer(s.(codes := codes), Failed(UniqueViolation))
    case Some(code) =>
      var row := Code(s.next, secret, 0, false, expiresAt, None, None, permissions);
      Answer(s.(codes := codes[code := row], next := s.next + 1), Done)
  }

  function ClaimOn(s: State, call: nat, code: string, secret: Option<Id>, now: int): Answer {
    if code !in s.codes then Answer(s, Failed(PairingInvalid))
    else
      var row := s.codes[code];
      if row.locked then Answer(s, Failed(PairingLocked))
      else if row.consumedAt.Some? then Answer(s, Failed(PairingConsumed))
      else if row.expiresAt <= now then Answer(s, Failed(PairingExpired))
      else if secret.None? then ConsumeOn(s, code, row.id, now)
      else Answer(s.(calls := s.calls[call := Verifying(code, row.id, row.failed, secret.value == row.secret, now)]), Awaiting)
  }

  predicate Consumable(s: State, code: string, row: Id, now: int) {
    && code in s.codes && s.codes[code].id == row
    && s.codes[code].consumedAt.None? && !s.codes[code].locked && s.codes[code].expiresAt > now
  }

  /** The guarded UPDATE and the INSERT, one transaction. */
  function ConsumeOn(s: State, code: string, row: Id, now: int): Answer {
    if !Consumable(s, code, row, now) then Answer(s, Failed(PairingConsumed))
    else
      var device := s.next;
      Answer(
        s.(devices := s.devices[device := Device(Pending, 1, None, None, now)],
           codes := s.codes[code := s.codes[code].(consumedAt := Some(now), consumedBy := Some(device))],
           next := s.next + 1,
           record := s.record.(paired := s.record.paired[device := Origin(row, s.codes[code].permissions)])),
        Claimed(device))
  }

  function Wrong(s: State, row: Id): nat {
    if row in s.record.wrong then s.record.wrong[row] else 0
  }

  function FailureOn(s: State, code: string, row: Id, attempts: nat): State {
    var known := s.(record := s.record.(wrong := s.record.wrong[row := Wrong(s, row) + 1]));
    if code in s.codes && s.codes[code].id == row
    then known.(codes := s.codes[code := s.codes[code].(failed := attempts, locked := attempts >= MAX_FAILED_ATTEMPTS)])
    else known
  }

  function ClaimEndsOn(s: State, call: nat): Answer
    requires call in s.calls && s.calls[call].Verifying?
  {
    var Verifying(code, row, failed, matches, at) := s.calls[call];
    var after := s.(calls := s.calls - {call});
    if matches then ConsumeOn(after, code, row, at)
    else
      Answer(FailureOn(after, code, row, failed + 1),
             Failed(if failed + 1 >= MAX_FAILED_ATTEMPTS then PairingLocked else PairingInvalid))
  }

  // ─── polling, sessions ───────────────────────────────────────────────────────

  function PollOn(s: State, call: nat, device: Id, genuine: bool, now: int, expiresAt: int): Answer {
    if !genuine || device !in s.devices then Answer(s, Failed(NotFound))
    else if s.devices[device].status == Pending then Answer(s, StillPending)
    else if s.devices[device].status != Active then Answer(s, Rejected)
    else if device !in s.stash then Answer(s, Failed(PairingExpired))
    else
      var after := s.(stash := s.stash - {device});
      if now - s.stash[device].at > DAV_STASH_TTL_MS then Answer(after, Failed(PairingExpired))
      else
        var access := Access(device, s.devices[device].tokenVersion, expiresAt);
        Answer(after.(calls := s.calls[call := Signing(access, Some(s.stash[device].password))]), Awaiting)
  }

  function RefreshOn(s: State, call: nat, token: RefreshToken, now: int, expiresAt: int): Answer {
    if token.device !in s.devices || s.devices[token.device].refresh.None? then Answer(s, Failed(Unauthenticated))
    else
      var device := s.devices[token.device];
      if device.status == Pending then Answer(s, Failed(DevicePending))
      else if device.status != Active then Answer(s, Failed(DeviceRevoked))
      else if device.refresh.value.raw != token.raw then Answer(s, Failed(Unauthenticated))
      else if device.refresh.value.expiresAt < now then Answer(s, Failed(TokenExpired))
      else
        Answer(s.(calls := s.calls[call := Signing(Access(token.device, device.tokenVersion, expiresAt), None)]), Awaiting)
  }

  /** `issueSession` after its await: the refresh token goes onto whatever row is there now. */
  function IssueOn(s: State, call: nat, refreshExpiresAt: int): Answer
    requires call in s.calls && s.calls[call].Signing?
  {
    var Signing(access, password) := s.calls[call];
    var device := access.device;
    var raw := s.next;
    var devices :=
      if device in s.devices then s.devices[device := s.devices[device].(refresh := Some(Refresh(raw, refreshExpiresAt)))]
      else s.devices;
    var handed := if password.Some? then [Handed(device, password.value)] else [];
    Answer(
      s.(devices := devices, calls := s.calls - {call}, next := s.next + 1,
         record := s.record.(access := s.record.access + {access}, handedOut := s.record.handedOut + handed)),
      Issued(access, RefreshToken(device, raw), password))
  }

  // ─── the operator ────────────────────────────────────────────────────────────

  function ApproveOn(s: State, call: nat, device: Id): Answer {
    if device !in s.devices then Answer(s, Failed(NotFound))
    else if s.devices[device].status == Revoked then Answer(s, Failed(DeviceRevoked))
    else Answer(s.(calls := s.calls[call := Hashing(device, s.next)], next := s.next + 1), Awaiting)
  }

  predicate ConsumedBy(s: State, code: string, device: Id) {
    code in s.codes && s.codes[code].consumedBy == Some(device)
  }

  ghost function DefaultPermissions(s: State, device: Id): seq<Permission> {
    if exists code :: ConsumedBy(s, code, device)
    then var code :| ConsumedBy(s, code, device); s.codes[code].permissions
    else []
  }

  /** The upserts of one transaction, skipping folders that are gone. */
  function Upserted(grants: map<(Id, Id), Mode>, device: Id, permissions: seq<Permission>, folders: set<Id>): map<(Id, Id), Mode> {
    if permissions == [] then grants
    else
      var before := Upserted(grants, device, permissions[..|permissions| - 1], folders);
      var last := permissions[|permissions| - 1];
      if last.folder in folders then before[(device, last.folder) := last.mode] else before
  }

  /** A foreign key keeps a row of permissions from outliving its device. */
  ghost function ApproveEndsOn(s: State, call: nat, now: int): Answer
    requires call in s.calls && s.calls[call].Hashing?
  {
    var Hashing(device, password) := s.calls[call];
    var after := s.(calls := s.calls - {call}, stash := s.stash[device := Stash(password, now)]);
    if device !in s.devices then Answer(after, Done)
    else
      Answer(
        after.(devices := s.devices[device := s.devices[device].(status := Active, dav := Some(password))],
               grants := Upserted(s.grants, device, DefaultPermissions(s, device), s.folders)),
        Done)
  }

  function Closed(device: Device): Device {
    device.(status := Revoked, tokenVersion := device.tokenVersion + 1, refresh := None)
  }

  function RevokeOn(s: State, device: Id): State {
    if device in s.devices then s.(devices := s.devices[device := Closed(s.devices[device])]) else s
  }

  function RejectOn(s: State, device: Id): Answer {
    if device !in s.devices then Answer(s, Failed(NotFound))
    else Answer(RevokeOn(s, device).(stash := s.stash - {device}), Done)
  }

  /** DELETE FROM devices, with what the schema cascades. */
  function Without(s: State, gone: set<Id>): State {
    s.(devices := s.devices - gone,
       grants := map key | key in s.grants && key.0 !in gone :: s.grants[key],
       codes := map code | code in s.codes :: Orphaned(s.codes[code], gone))
  }

  function Orphaned(row: Code, gone: set<Id>): Code {
    if row.consumedBy.Some? && row.consumedBy.value in gone then row.(consumedBy := None) else row
  }

  function DeleteOn(s: State, device: Id): Answer {
    if device !in s.devices then Answer(s, Failed(NotFound))
    else Answer(Without(RevokeOn(s, device), {device}), Done)
  }

  predicate Abandoned(device: Device, now: int) {
    || (device.status == Pending && device.createdAt < now - PENDING_GRACE_MS)
    || (device.status == Revoked && device.dav.None? && device.createdAt < now - REJECTED_GRACE_MS)
  }

  function PruneOn(s: State, now: int): State {
    Without(s, set device | device in s.devices && Abandoned(s.devices[device], now))
  }

  function TicketFor(s: State, device: Id, file: Id, expiresAt: int): Ticket
    requires device in s.devices
  {
    Ticket(device, expiresAt, Signature(device, file, expiresAt, s.devices[device].tokenVersion))
  }

  function PlayOn(s: State, device: Id, file: Id, expiresAt: int): Answer {
    if device !in s.devices then Answer(s, Failed(Unauthenticated))
    else Answer(s.(record := s.record.(tickets := s.record.tickets + {TicketFor(s, device, file, expiresAt)})), Done)
  }

  function SetPermissionsOn(s: State, device: Id, permissions: seq<Permission>): Answer {
    if device !in s.devices || exists p | p in permissions :: p.folder !in s.folders then Answer(s, Failed(NotFound))
    else
      Answer(
        s.(grants := Upserted(s.grants, device, permissions, s.folders),
           record := s.record.(chosen := s.record.chosen + set p | p in permissions :: (device, p.folder))),
        Done)
  }

  function DeleteFolderOn(s: State, folder: Id): State {
    s.(folders := s.folders - {folder}, grants := map key | key in s.grants && key.1 != folder :: s.grants[key])
  }

  // ─── runs ────────────────────────────────────────────────────────────────────

  predicate Enabled(s: State, e: Event) {
    match e
    case Mint(tries, _, _, _, _) => |tries| == MINT_ATTEMPTS
    case ClaimBegins(call, _, _, _) => call !in s.calls
    case ClaimEnds(call) => call in s.calls && s.calls[call].Verifying?
    case PollBegins(call, _, _, _, _) => call !in s.calls
    case RefreshBegins(call, _, _, _) => call !in s.calls
    case SessionIssued(call, _) => call in s.calls && s.calls[call].Signing?
    case ApproveBegins(call, _) => call !in s.calls
    case ApproveEnds(call, _) => call in s.calls && s.calls[call].Hashing?
    case _ => true
  }

  ghost function Perform(s: State, e: Event): Answer
    requires Enabled(s, e)
  {
    match e
    case Mint(tries, secret, permissions, now, expiresAt) => MintOn(s, tries, secret, permissions, now, expiresAt)
    case ClaimBegins(call, code, secret, now) => ClaimOn(s, call, code, secret, now)
    case ClaimEnds(call) => ClaimEndsOn(s, call)
    case PollBegins(call, device, genuine, now, expiresAt) => PollOn(s, call, device, genuine, now, expiresAt)
    case RefreshBegins(call, token, now, expiresAt) => RefreshOn(s, call, token, now, expiresAt)
    case SessionIssued(call, refreshExpiresAt) => IssueOn(s, call, refreshExpiresAt)
    case ApproveBegins(call, device) => ApproveOn(s, call, device)
    case ApproveEnds(call, now) => ApproveEndsOn(s, call, now)
    case Reject(device) => RejectOn(s, device)
    case Revoke(device) => Answer(RevokeOn(s, device), Done)
    case Delete(device) => DeleteOn(s, device)
    case Prune(now) => Answer(PruneOn(s, now), Done)
    case Play(device, file, expiresAt) => PlayOn(s, device, file, expiresAt)
    case AddFolder => Answer(s.(folders := s.folders + {s.next}, next := s.next + 1), Done)
    case DeleteFolder(folder) => Answer(DeleteFolderOn(s, folder), Done)
    case SetPermissions(device, permissions) => SetPermissionsOn(s, device, permissions)
    case Restart => Answer(s.(stash := map[], calls := map[]), Done)
  }

  ghost function Step(s: State, e: Event): State
    requires Enabled(s, e)
  {
    Perform(s, e).state
  }

  ghost function Run(s: State, events: seq<Event>): State
    decreases |events|
  {
    if events == [] || !Enabled(s, events[0]) then s else Run(Step(s, events[0]), events[1..])
  }

  const EMPTY: State := State(map[], map[], {}, map[], map[], map[], 0, Record({}, {}, map[], [], {}, map[]))

  // ─── the verifiers ───────────────────────────────────────────────────────────

  function VerifyAccess(s: State, token: Access, now: int): Option<Error> {
    if token.expiresAt <= now then Some(TokenExpired)
    else if token.device !in s.devices then Some(Unauthenticated)
    else if s.devices[token.device].status == Pending then Some(DevicePending)
    else if s.devices[token.device].status != Active then Some(DeviceRevoked)
    else if s.devices[token.device].tokenVersion != token.version then Some(TokenRevoked)
    else None
  }

  function VerifyTicket(s: State, ticket: Ticket, file: Id, now: int): Option<Error> {
    if ticket.expiresAt <= now then Some(TokenExpired)
    else if ticket.device !in s.devices then Some(Unauthenticated)
    else if s.devices[ticket.device].status != Active then Some(DeviceRevoked)
    else if ticket.signature != Signature(ticket.device, file, ticket.expiresAt, s.devices[ticket.device].tokenVersion)
      then Some(Unauthenticated)
    else None
  }
}
