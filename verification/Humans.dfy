/**
 * Human accounts, venture-scoped roles, and the guarded routes that change them.
 *
 * Each route is one atomic step over the account table, the role table (rows are revoked,
 * never deleted) and the audit log.
 */
module Humans {
  import opened Wrappers

  type HumanId = nat
  type VentureId = string
  type Time = int

  const ALL_VENTURES := "*"

  datatype Role = VentureOperator | ComplianceOfficer | Ivan

  function Rank(role: Role): nat {
    match role
    case VentureOperator => 1
    case ComplianceOfficer => 2
    case Ivan => 3
  }

  datatype Origin = Person | TestFixture | Service

  datatype Account = Account(active: bool, origin: Origin)

  type Scope = Option<VentureId>

  /** `COALESCE(venture_id, '*')`, the form the live-role index compares. */
  function ScopeKey(scope: Scope): VentureId {
    if scope.Some? then scope.value else ALL_VENTURES
  }

  datatype Revocation = Revocation(at: Time, actor: HumanId)

  datatype RoleRow = RoleRow(human: HumanId, role: Role, scope: Scope, grantedBy: HumanId, grantedAt: Time,
                             revoked: Option<Revocation>) {
    predicate Live() { revoked.None? }

    predicate Is(human: HumanId, role: Role, key: VentureId) {
      this.human == human && this.role == role && ScopeKey(scope) == key
    }
  }

  /** An audit event's venture column is the scope as given; its subject spells an absent or empty one `*`. */
  datatype Event =
    | RoleGranted(human: HumanId, role: Role, scope: Scope, actor: HumanId)
    | RoleRevoked(human: HumanId, role: Role, scope: Scope, actor: HumanId)
  {
    function Subject(): VentureId {
      if scope.None? || scope.value == "" then ALL_VENTURES else scope.value
    }
  }

  datatype Office = Office(accounts: map<HumanId, Account>, rows: seq<RoleRow>, log: seq<Event>)

  // ------------------------------------------------ who may do what

  /** An account as a request reads it: a role scoped to the empty venture name reads as every venture. */
  datatype Human = Human(id: HumanId, active: bool, origin: Origin, roles: set<(Role, Scope)>) {
    predicate Holds(role: Role, venture: Scope) {
      exists held :: held in roles && held.0 == role
                     && (held.1.None? || venture.None? || held.1 == venture)
    }

    function StrongestRole(venture: Scope): (strongest: Option<Role>)
      ensures strongest.None? <==> forall role :: !Holds(role, venture)
      ensures strongest.Some? ==> Holds(strongest.value, venture)
      ensures forall role :: Holds(role, venture) ==> Rank(role) <= Rank(strongest.value)
    {
      if Holds(Ivan, venture) then Some(Ivan)
      else if Holds(ComplianceOfficer, venture) then Some(ComplianceOfficer)
      else if Holds(VentureOperator, venture) then Some(VentureOperator)
      else None
    }
  }

  function ReadScope(scope: Scope): Scope {
    if scope == Some("") then None else scope
  }

  function Read(o: Office, id: HumanId): Human
    requires id in o.accounts
  {
    Human(id, o.accounts[id].active, o.accounts[id].origin,
          set i | 0 <= i < |o.rows| && o.rows[i].human == id && o.rows[i].Live()
            :: (o.rows[i].role, ReadScope(o.rows[i].scope)))
  }

  datatype Refusal = Inactive | NoRole | TooWeak(held: Role) | NotAPerson | SelfGrant | LastAdministrator
                   | SelfSuspension | NoSuchHuman | AlreadyExists | NotTheFirst

  /** Role strength and venture scope, together. */
  function Authorize(human: Human, required: Role, venture: Scope): Result<Role, Refusal> {
    if !human.active then Err(Inactive) else
      match human.StrongestRole(venture)
      case None => Err(NoRole)
      case Some(held) => if Rank(held) < Rank(required) then Err(TooWeak(held)) else Ok(held)
  }

  predicate Outranks(held: Role, role: Role) {
    Rank(held) > Rank(role) || (held == Ivan && role == Ivan)
  }

  /** Strictly stronger, except that the top role manages its own rank; and never a grant to oneself. */
  function MayGrant(actor: Human, role: Role, target: Option<HumanId>, revoking: bool): Result<Role, Refusal> {
    if !actor.active then Err(Inactive) else
      match actor.StrongestRole(None)
      case None => Err(NoRole)
      case Some(held) =>
        if !Outranks(held, role) then Err(TooWeak(held))
        else if !revoking && target == Some(actor.id) then Err(SelfGrant)
        else Ok(held)
  }

  // ------------------------------------------------ the two writes

  predicate HeldLive(rows: seq<RoleRow>, human: HumanId, role: Role, key: VentureId) {
    exists i :: 0 <= i < |rows| && rows[i].Live() && rows[i].Is(human, role, key)
  }

  /** Insert-or-nothing; an event only when a row was inserted. The top role is refused to a fixture. */
  function Granted(o: Office, human: HumanId, role: Role, scope: Scope, actor: HumanId, now: Time)
    : Result<Office, Refusal>
  {
    if human !in o.accounts then Err(NoSuchHuman)
    else if role == Ivan && o.accounts[human].origin != Person then Err(NotAPerson)
    else if HeldLive(o.rows, human, role, ScopeKey(scope)) then Ok(o)
    else Ok(o.(rows := o.rows + [RoleRow(human, role, scope, actor, now, None)],
               log := o.log + [RoleGranted(human, role, scope, actor)]))
  }

  function RevokedRows(rows: seq<RoleRow>, human: HumanId, role: Role, key: VentureId, r: Revocation): seq<RoleRow> {
    seq(|rows|, i requires 0 <= i < |rows| =>
      if rows[i].Live() && rows[i].Is(human, role, key) then rows[i].(revoked := Some(r)) else rows[i])
  }

  function Revoked(o: Office, human: HumanId, role: Role, scope: Scope, actor: HumanId, now: Time): Office {
    if !HeldLive(o.rows, human, role, ScopeKey(scope)) then o
    else o.(rows := RevokedRows(o.rows, human, role, ScopeKey(scope), Revocation(now, actor)),
            log := o.log + [RoleRevoked(human, role, scope, actor)])
  }

  // ------------------------------------------------ administrators

  predicate HoldsIvan(rows: seq<RoleRow>, h: HumanId) {
    exists i :: 0 <= i < |rows| && rows[i].human == h && rows[i].role == Ivan && rows[i].Live()
  }

  ghost predicate Administers(o: Office, h: HumanId) {
    h in o.accounts && o.accounts[h].active && HoldsIvan(o.rows, h)
  }

  /** The guard: refuse what would leave no active administrator but this one. */
  ghost predicate IsLastAdministrator(o: Office, h: HumanId) {
    HoldsIvan(o.rows, h) && forall other :: Administers(o, other) ==> other == h
  }

  // ------------------------------------------------ the routes

  datatype Act =
    | Bootstrap(id: HumanId, role: Role)
    | CreateAccount(id: HumanId, origin: Origin)
    | CreateHuman(me: HumanId, id: HumanId, firstRole: Option<Role>, scope: Scope)
    | GrantRole(me: HumanId, target: HumanId, role: Role, scope: Scope)
    | RevokeRole(me: HumanId, target: HumanId, role: Role, scope: Scope)
    | SetStatus(me: HumanId, target: HumanId, active: bool)
    | SuspendFixtures(me: HumanId)

  function Suspended(accounts: map<HumanId, Account>, actor: HumanId): map<HumanId, Account> {
    map h | h in accounts ::
      if accounts[h].active && accounts[h].origin == TestFixture && h != actor
      then accounts[h].(active := false) else accounts[h]
  }

  ghost function Step(o: Office, act: Act, now: Time): Result<Office, Refusal> {
    match act
    case Bootstrap(id, role) =>
      if o.accounts != map[] then Err(NotTheFirst)
      else Granted(o.(accounts := o.accounts[id := Account(true, Person)]), id, role, None, id, now)
    case CreateAccount(id, origin) =>
      if id in o.accounts then Err(AlreadyExists) else Ok(o.(accounts := o.accounts[id := Account(true, origin)]))
    case CreateHuman(me, id, role, scope) =>
      if me !in o.accounts then Err(NoSuchHuman)
      else if Authorize(Read(o, me), ComplianceOfficer, None).Err?
      then Err(Authorize(Read(o, me), ComplianceOfficer, None).error)
      else if role.Some? && MayGrant(Read(o, me), role.value, None, false).Err?
      then Err(MayGrant(Read(o, me), role.value, None, false).error)
      else if id in o.accounts then Err(AlreadyExists)
      else
        var made := o.(accounts := o.accounts[id := Account(true, Person)]);
        if role.None? then Ok(made) else Granted(made, id, role.value, scope, me, now)
    case GrantRole(me, target, role, scope) =>
      if me !in o.accounts || target !in o.accounts then Err(NoSuchHuman)
      else if MayGrant(Read(o, me), role, Some(target), false).Err?
      then Err(MayGrant(Read(o, me), role, Some(target), false).error)
      else Granted(o, target, role, scope, me, now)
    case RevokeRole(me, target, role, scope) =>
      if me !in o.accounts || target !in o.accounts then Err(NoSuchHuman)
      else if MayGrant(Read(o, me), role, Some(target), true).Err?
      then Err(MayGrant(Read(o, me), role, Some(target), true).error)
      else if role == Ivan && IsLastAdministrator(o, target) then Err(LastAdministrator)
      else Ok(Revoked(o, target, role, scope, me, now))
    case SetStatus(me, target, active) =>
      if me !in o.accounts then Err(NoSuchHuman)
      else if Authorize(Read(o, me), ComplianceOfficer, None).Err?
      then Err(Authorize(Read(o, me), ComplianceOfficer, None).error)
      else if target !in o.accounts then Err(NoSuchHuman)
      else if !active && IsLastAdministrator(o, target) then Err(LastAdministrator)
      else if !active && me == target then Err(SelfSuspension)
      else Ok(o.(accounts := o.accounts[target := o.accounts[target].(active := active)]))
    case SuspendFixtures(me) =>
      if me !in o.accounts then Err(NoSuchHuman)
      else if Authorize(Read(o, me), Ivan, None).Err? then Err(Authorize(Read(o, me), Ivan, None).error)
      else Ok(o.(accounts := Suspended(o.accounts, me)))
  }

  ghost function Next(o: Office, act: Act, now: Time): Office {
    var r := Step(o, act, now);
    if r.Ok? then r.value else o
  }

  ghost function Run(o: Office, acts: seq<(Act, Time)>): Office
    decreases |acts|
  {
    if acts == [] then o else Run(Next(o, acts[0].0, acts[0].1), acts[1..])
  }

  // ------------------------------------------------ who is let through, in the rows themselves

  /** A live row of the role, in whatever venture. */
  predicate HasRow(rows: seq<RoleRow>, h: HumanId, role: Role) {
    exists i :: 0 <= i < |rows| && rows[i].human == h && rows[i].role == role && rows[i].revoked.None?
  }

  /** A live row of the role that reaches the venture: its own, or one scoped to no venture or the empty name. */
  predicate HasRowIn(rows: seq<RoleRow>, h: HumanId, role: Role, venture: VentureId) {
    exists i :: 0 <= i < |rows| && rows[i].human == h && rows[i].role == role && rows[i].revoked.None?
                && rows[i].scope in {None, Some(""), Some(venture)}
  }

  lemma ReadsItsRows(o: Office, h: HumanId, role: Role, venture: VentureId)
    requires h in o.accounts
    ensures Read(o, h).id == h && Read(o, h).active == o.accounts[h].active && Read(o, h).origin == o.accounts[h].origin
    ensures Read(o, h).Holds(role, None) <==> HasRow(o.rows, h, role)
    ensures venture != "" ==> (Read(o, h).Holds(role, Some(venture)) <==> HasRowIn(o.rows, h, role, venture))
  {
    var me := Read(o, h);
    if i :| 0 <= i < |o.rows| && o.rows[i].human == h && o.rows[i].role == role && o.rows[i].Live() {
      assert (role, ReadScope(o.rows[i].scope)) in me.roles;
    }
    if i :| 0 <= i < |o.rows| && o.rows[i].human == h && o.rows[i].role == role && o.rows[i].Live()
            && o.rows[i].scope in {None, Some(""), Some(venture)} {
      assert (role, ReadScope(o.rows[i].scope)) in me.roles;
    }
  }

  /** A role authorizes what it and every weaker role may do, and a suspended account nothing. */
  lemma AuthorizedIff(human: Human, venture: Scope)
    ensures Authorize(human, Ivan, venture).Ok? <==> human.active && human.Holds(Ivan, venture)
    ensures Authorize(human, ComplianceOfficer, venture).Ok? <==>
            human.active && (human.Holds(Ivan, venture) || human.Holds(ComplianceOfficer, venture))
    ensures Authorize(human, VentureOperator, venture).Ok? <==>
            human.active && exists role :: human.Holds(role, venture)
  {
  }

  /** The top role hands out every role, the next hands out the lowest, and nobody hands one to themselves. */
  lemma MayGrantIff(actor: Human, role: Role, target: Option<HumanId>, revoking: bool)
    ensures MayGrant(actor, role, target, revoking).Ok? <==>
            && actor.active
            && (actor.Holds(Ivan, None) || (actor.Holds(ComplianceOfficer, None) && role == VentureOperator))
            && (revoking || target != Some(actor.id))
  {
  }

  /** Another active account holds the top role. */
  ghost predicate AnotherAdministers(o: Office, target: HumanId) {
    exists h :: h != target && h in o.accounts && o.accounts[h].active && HasRow(o.rows, h, Ivan)
  }

  lemma LastIffNoOther(o: Office, target: HumanId)
    ensures IsLastAdministrator(o, target) <==> HasRow(o.rows, target, Ivan) && !AnotherAdministers(o, target)
  {
    assert forall h :: HoldsIvan(o.rows, h) <==> HasRow(o.rows, h, Ivan);
    if h :| h != target && h in o.accounts && o.accounts[h].active && HasRow(o.rows, h, Ivan) {
      assert Administers(o, h);
    }
  }

  /** An active account with a live row of a role that may change `role`. */
  predicate MayChange(o: Office, me: HumanId, role: Role) {
    && me in o.accounts && o.accounts[me].active
    && (HasRow(o.rows, me, Ivan) || (HasRow(o.rows, me, ComplianceOfficer) && role == VentureOperator))
  }

  predicate IsOfficer(o: Office, me: HumanId) {
    && me in o.accounts && o.accounts[me].active
    && (HasRow(o.rows, me, Ivan) || HasRow(o.rows, me, ComplianceOfficer))
  }

  lemma MayChangeIff(o: Office, me: HumanId, role: Role, target: Option<HumanId>, revoking: bool)
    requires me in o.accounts
    ensures MayGrant(Read(o, me), role, target, revoking).Ok? <==>
            MayChange(o, me, role) && (revoking || target != Some(me))
    ensures Authorize(Read(o, me), ComplianceOfficer, None).Ok? <==> IsOfficer(o, me)
    ensures Authorize(Read(o, me), Ivan, None).Ok? <==> o.accounts[me].active && HasRow(o.rows, me, Ivan)
  {
    ReadsItsRows(o, me, Ivan, "");
    ReadsItsRows(o, me, ComplianceOfficer, "");
    MayGrantIff(Read(o, me), role, target, revoking);
    AuthorizedIff(Read(o, me), None);
  }

  /** What each route lets through, over the rows and accounts as they stand. */
  lemma RoutesOpenIff(o: Office, me: HumanId, target: HumanId, role: Role, scope: Scope, active: bool, now: Time)
    ensures Step(o, GrantRole(me, target, role, scope), now).Ok? <==>
            && MayChange(o, me, role) && me != target && target in o.accounts
            && (role == Ivan ==> o.accounts[target].origin == Person)
    ensures Step(o, RevokeRole(me, target, role, scope), now).Ok? <==>
            && MayChange(o, me, role) && target in o.accounts
            && (role == Ivan && HasRow(o.rows, target, Ivan) ==> AnotherAdministers(o, target))
    ensures Step(o, SetStatus(me, target, active), now).Ok? <==>
            && IsOfficer(o, me) && target in o.accounts
            && (!active ==> me != target && (HasRow(o.rows, target, Ivan) ==> AnotherAdministers(o, target)))
    ensures Step(o, SuspendFixtures(me), now).Ok? <==>
            me in o.accounts && o.accounts[me].active && HasRow(o.rows, me, Ivan)
  {
    LastIffNoOther(o, target);
    if me in o.accounts {
      MayChangeIff(o, me, role, Some(target), false);
      MayChangeIff(o, me, role, Some(target), true);
    }
  }

  /** A new account is a person's, made by an officer who may also give it its first role. */
  lemma CreatingOpensIff(o: Office, me: HumanId, id: HumanId, role: Option<Role>, scope: Scope, now: Time)
    ensures Step(o, CreateHuman(me, id, role, scope), now).Ok? <==>
            && IsOfficer(o, me) && id !in o.accounts && (role.Some? ==> MayChange(o, me, role.value))
  {
    if me in o.accounts {
      MayChangeIff(o, me, if role.Some? then role.value else Ivan, None, false);
    }
  }

  // ------------------------------------------------ what each route does, in the rows themselves

  /** An accepted grant leaves the role held, every earlier row as it was, and an event iff it was not held before. */
  lemma GrantTakesEffect(o: Office, me: HumanId, target: HumanId, role: Role, scope: Scope, now: Time)
    requires Step(o, GrantRole(me, target, role, scope), now).Ok?
    ensures var after := Next(o, GrantRole(me, target, role, scope), now);
            && HeldLive(after.rows, target, role, ScopeKey(scope)) && after.accounts == o.accounts
            && after.rows == o.rows + (if HeldLive(o.rows, target, role, ScopeKey(scope)) then []
                                       else [RoleRow(target, role, scope, me, now, None)])
            && after.log == o.log + (if HeldLive(o.rows, target, role, ScopeKey(scope)) then []
                                     else [RoleGranted(target, role, scope, me)])
  {
    var after := Next(o, GrantRole(me, target, role, scope), now);
    if !HeldLive(o.rows, target, role, ScopeKey(scope)) {
      assert after.rows[|o.rows|].Live() && after.rows[|o.rows|].Is(target, role, ScopeKey(scope));
    }
  }

  /**
   * An accepted revocation leaves the role not held: each of its live rows names the actor and the
   * moment, every other row is as it was, and there is one event iff the role was held.
   */
  lemma RevokeTakesEffect(o: Office, me: HumanId, target: HumanId, role: Role, scope: Scope, now: Time)
    requires Step(o, RevokeRole(me, target, role, scope), now).Ok?
    ensures var after := Next(o, RevokeRole(me, target, role, scope), now);
            && !HeldLive(after.rows, target, role, ScopeKey(scope)) && after.accounts == o.accounts
            && |after.rows| == |o.rows|
            && (forall i :: 0 <= i < |o.rows| ==>
                  if o.rows[i].revoked.None? && o.rows[i].human == target && o.rows[i].role == role
                     && ScopeKey(o.rows[i].scope) == ScopeKey(scope)
                  then after.rows[i] == o.rows[i].(revoked := Some(Revocation(now, me)))
                  else after.rows[i] == o.rows[i])
            && after.log == o.log + (if HeldLive(o.rows, target, role, ScopeKey(scope))
                                     then [RoleRevoked(target, role, scope, me)] else [])
  {
  }

  /** An accepted status change makes the account what was asked and touches nothing else. */
  lemma StatusTakesEffect(o: Office, me: HumanId, target: HumanId, active: bool, now: Time)
    requires Step(o, SetStatus(me, target, active), now).Ok?
    ensures var after := Next(o, SetStatus(me, target, active), now);
            && target in after.accounts && after.accounts[target].active == active
            && after.accounts[target].origin == o.accounts[target].origin
            && after.accounts.Keys == o.accounts.Keys
            && (forall h :: h in o.accounts && h != target ==> after.accounts[h] == o.accounts[h])
            && after.rows == o.rows && after.log == o.log
  {
  }

  /** A bulk suspension leaves no active fixture but the actor, and every other account as it was. */
  lemma SuspensionTakesEffect(o: Office, me: HumanId, now: Time)
    requires Step(o, SuspendFixtures(me), now).Ok?
    ensures var after := Next(o, SuspendFixtures(me), now);
            && after.accounts.Keys == o.accounts.Keys && after.rows == o.rows && after.log == o.log
            && (forall h :: h in o.accounts && after.accounts[h].active ==>
                  h == me || after.accounts[h].origin != TestFixture)
            && (forall h :: h in o.accounts && (h == me || o.accounts[h].origin != TestFixture) ==>
                  after.accounts[h] == o.accounts[h])
            && (forall h :: h in o.accounts ==> after.accounts[h].origin == o.accounts[h].origin)
  {
  }

  /** A created account is an active person's, with the first role asked for, and the office's only change. */
  lemma CreatingTakesEffect(o: Office, me: HumanId, id: HumanId, role: Option<Role>, scope: Scope, now: Time)
    requires Step(o, CreateHuman(me, id, role, scope), now).Ok?
    ensures var after := Next(o, CreateHuman(me, id, role, scope), now);
            && after.accounts == o.accounts[id := Account(true, Person)]
            && (role.None? ==> after.rows == o.rows && after.log == o.log)
            && (role.Some? ==>
                  && HeldLive(after.rows, id, role.value, ScopeKey(scope))
                  && (if HeldLive(o.rows, id, role.value, ScopeKey(scope))
                      then after.rows == o.rows && after.log == o.log
                      else && after.rows == o.rows + [RoleRow(id, role.value, scope, me, now, None)]
                           && after.log == o.log + [RoleGranted(id, role.value, scope, me)]))
  {
    var after := Next(o, CreateHuman(me, id, role, scope), now);
    if role.Some? && !HeldLive(o.rows, id, role.value, ScopeKey(scope)) {
      assert after.rows[|o.rows|].Live() && after.rows[|o.rows|].Is(id, role.value, ScopeKey(scope));
    }
  }

  /** The first account is made once, holds what it was made with in every venture, and granted that to itself. */
  lemma BootstrapTakesEffect(o: Office, id: HumanId, role: Role, now: Time)
    ensures Next(Office(map[], [], []), Bootstrap(id, role), now)
            == Office(map[id := Account(true, Person)], [RoleRow(id, role, None, id, now, None)],
                      [RoleGranted(id, role, None, id)])
    ensures o.accounts != map[] ==> Step(o, Bootstrap(id, role), now) == Err(NotTheFirst)
  {
  }

  /** An account opened outside the routes is active, of the origin given, and the office's only change. */
  lemma OpeningTakesEffect(o: Office, id: HumanId, origin: Origin, now: Time)
    ensures var after := Next(o, CreateAccount(id, origin), now);
            && after == o.(accounts := after.accounts) && after.accounts.Keys == o.accounts.Keys + {id}
            && (forall h :: h in o.accounts ==> after.accounts[h] == o.accounts[h])
            && (id !in o.accounts ==> after.accounts[id].active && after.accounts[id].origin == origin)
  {
  }

  /** Two scopes share a live row only as no venture and the star do; the empty name is a venture of its own. */
  lemma ScopesStandApart(scope: Scope, other: Scope)
    ensures ScopeKey(scope) == ScopeKey(other) <==>
            scope == other || (scope in {None, Some("*")} && other in {None, Some("*")})
  {
  }

  // ------------------------------------------------ there is always an administrator

  lemma ReadsIvan(o: Office, id: HumanId)
    requires id in o.accounts && Read(o, id).Holds(Ivan, None)
    ensures HoldsIvan(o.rows, id)
  {
    var held :| held in Read(o, id).roles && held.0 == Ivan;
  }

  lemma RevokingOneKeepsOthers(o: Office, human: HumanId, role: Role, scope: Scope, actor: HumanId, now: Time,
                               other: HumanId)
    requires Administers(o, other) && (role == Ivan ==> other != human)
    ensures Administers(Revoked(o, human, role, scope, actor, now), other)
  {
    var i :| 0 <= i < |o.rows| && o.rows[i].human == other && o.rows[i].role == Ivan && o.rows[i].Live();
    var o' := Revoked(o, human, role, scope, actor, now);
    assert o'.rows[i] == o.rows[i];
  }

  lemma GrantingKeepsAdministrators(o: Office, human: HumanId, role: Role, scope: Scope, actor: HumanId, now: Time,
                                    admin: HumanId)
    requires Administers(o, admin)
    ensures var r := Granted(o, human, role, scope, actor, now); r.Ok? ==> Administers(r.value, admin)
  {
    var i :| 0 <= i < |o.rows| && o.rows[i].human == admin && o.rows[i].role == Ivan && o.rows[i].Live();
    var r := Granted(o, human, role, scope, actor, now);
    if r.Ok? {
      assert r.value.rows[i] == o.rows[i];
    }
  }

  lemma StepKeepsAnAdministrator(o: Office, act: Act, now: Time, admin: HumanId)
    requires Administers(o, admin)
    ensures exists h :: Administers(Next(o, act, now), h)
  {
    var o' := Next(o, act, now);
    if Step(o, act, now).Err? {
      assert Administers(o', admin);
      return;
    }
    match act
    case CreateHuman(me, id, role, scope) =>
      var made := o.(accounts := o.accounts[id := Account(true, Person)]);
      assert made.rows == o.rows && HoldsIvan(made.rows, admin);
      if role.Some? {
        GrantingKeepsAdministrators(made, id, role.value, scope, me, now, admin);
      }
      assert Administers(o', admin);
    case GrantRole(me, target, role, scope) =>
      GrantingKeepsAdministrators(o, target, role, scope, me, now, admin);
      assert Administers(o', admin);
    case RevokeRole(me, target, role, scope) =>
      var other :| Administers(o, other) && (role == Ivan ==> other != target);
      RevokingOneKeepsOthers(o, target, role, scope, me, now, other);
    case SetStatus(me, target, active) =>
      var other :| Administers(o, other) && (!active ==> other != target);
      assert o' == o.(accounts := o.accounts[target := o.accounts[target].(active := active)]);
      assert Administers(o, other);
      assert Administers(o', other);
    case SuspendFixtures(me) =>
      ReadsIvan(o, me);
      assert HoldsIvan(o'.rows, me) && Administers(o', me);
    case CreateAccount(id, origin) =>
      assert HoldsIvan(o'.rows, admin) && Administers(o', admin);
    case Bootstrap(id, role) =>
  }

  /** No sequence of guarded role changes, status changes and bulk suspensions ends administration. */
  lemma {:induction false} AlwaysAnAdministrator(o: Office, acts: seq<(Act, Time)>)
    requires exists h :: Administers(o, h)
    ensures exists h :: Administers(Run(o, acts), h)
    decreases |acts|
  {
    if acts == [] {
      assert Run(o, acts) == o;
    } else {
      var h :| Administers(o, h);
      StepKeepsAnAdministrator(o, acts[0].0, acts[0].1, h);
      AlwaysAnAdministrator(Next(o, acts[0].0, acts[0].1), acts[1..]);
      assert Run(o, acts) == Run(Next(o, acts[0].0, acts[0].1), acts[1..]);
    }
  }

  // ------------------------------------------------ no fixture is ever Ivan

  ghost predicate OnlyPeopleAreIvan(o: Office) {
    forall i :: 0 <= i < |o.rows| && o.rows[i].role == Ivan && o.rows[i].Live() ==>
                  o.rows[i].human in o.accounts && o.accounts[o.rows[i].human].origin == Person
  }

  lemma GrantsIvanToPeople(o: Office, human: HumanId, role: Role, scope: Scope, actor: HumanId, now: Time)
    requires OnlyPeopleAreIvan(o) && Granted(o, human, role, scope, actor, now).Ok?
    ensures OnlyPeopleAreIvan(Granted(o, human, role, scope, actor, now).value)
  {
  }

  lemma StepKeepsIvanToPeople(o: Office, act: Act, now: Time)
    requires OnlyPeopleAreIvan(o)
    ensures OnlyPeopleAreIvan(Next(o, act, now))
  {
    if Step(o, act, now).Ok? {
      match act
      case Bootstrap(id, role) =>
        GrantsIvanToPeople(o.(accounts := o.accounts[id := Account(true, Person)]), id, role, None, id, now);
      case CreateHuman(me, id, role, scope) =>
        if role.Some? {
          GrantsIvanToPeople(o.(accounts := o.accounts[id := Account(true, Person)]), id, role.value, scope, me, now);
        }
      case GrantRole(me, target, role, scope) => GrantsIvanToPeople(o, target, role, scope, me, now);
      case RevokeRole(me, target, role, scope) =>
        forall i | 0 <= i < |o.rows| && Next(o, act, now).rows[i].Live()
          ensures Next(o, act, now).rows[i] == o.rows[i]
        {
        }
      case _ =>
    }
  }

  /** No live founder role ever belongs to a fixture or a service account. */
  lemma {:induction false} NoFixtureIsEverIvan(o: Office, acts: seq<(Act, Time)>)
    requires OnlyPeopleAreIvan(o)
    ensures OnlyPeopleAreIvan(Run(o, acts))
    decreases |acts|
  {
    if acts != [] {
      StepKeepsIvanToPeople(o, acts[0].0, acts[0].1);
      NoFixtureIsEverIvan(Next(o, acts[0].0, acts[0].1), acts[1..]);
    }
  }

  // ------------------------------------------------ events balance live rows

  /** `ux_human_role_live`. */
  ghost predicate OneLiveRow(rows: seq<RoleRow>) {
    forall i, j :: 0 <= i < j < |rows| && rows[i].Live() && rows[j].Live() ==>
                     !rows[j].Is(rows[i].human, rows[i].role, ScopeKey(rows[i].scope))
  }

  function Signed(e: Event, human: HumanId, role: Role, key: VentureId): int {
    if e.human != human || e.role != role || ScopeKey(e.scope) != key then 0 else if e.RoleGranted? then 1 else -1
  }

  /** Grants less revocations the log records. */
  function Balance(log: seq<Event>, human: HumanId, role: Role, key: VentureId): int {
    if log == [] then 0
    else Balance(log[..|log| - 1], human, role, key) + Signed(log[|log| - 1], human, role, key)
  }

  function Bit(b: bool): int { if b then 1 else 0 }

  /** The events on record say exactly which roles are held. */
  ghost predicate LogBalances(o: Office) {
    forall human, role, key :: Balance(o.log, human, role, key) == Bit(HeldLive(o.rows, human, role, key))
  }

  lemma AppendHolds(rows: seq<RoleRow>, row: RoleRow, human: HumanId, role: Role, key: VentureId)
    ensures HeldLive(rows + [row], human, role, key)
            <==> HeldLive(rows, human, role, key) || (row.Live() && row.Is(human, role, key))
  {
    var more := rows + [row];
    assert forall i :: 0 <= i < |rows| ==> more[i] == rows[i];
    assert more[|rows|] == row;
    if HeldLive(rows, human, role, key) {
      var i :| 0 <= i < |rows| && rows[i].Live() && rows[i].Is(human, role, key);
      assert more[i].Live() && more[i].Is(human, role, key);
    }
  }

  lemma AppendBalances(log: seq<Event>, e: Event, human: HumanId, role: Role, key: VentureId)
    ensures Balance(log + [e], human, role, key) == Balance(log, human, role, key) + Signed(e, human, role, key)
  {
    assert (log + [e])[..|log|] == log;
  }

  lemma AppendKeepsOneLiveRow(rows: seq<RoleRow>, row: RoleRow)
    requires OneLiveRow(rows) && !HeldLive(rows, row.human, row.role, ScopeKey(row.scope))
    ensures OneLiveRow(rows + [row])
  {
    forall i | 0 <= i < |rows| && rows[i].Live()
      ensures !row.Is(rows[i].human, rows[i].role, ScopeKey(rows[i].scope))
    {
      assert !rows[i].Is(row.human, row.role, ScopeKey(row.scope));
    }
  }

  lemma GrantBalances(o: Office, human: HumanId, role: Role, scope: Scope, actor: HumanId, now: Time)
    requires OneLiveRow(o.rows) && LogBalances(o) && Granted(o, human, role, scope, actor, now).Ok?
    ensures var o' := Granted(o, human, role, scope, actor, now).value; OneLiveRow(o'.rows) && LogBalances(o')
  {
    if !HeldLive(o.rows, human, role, ScopeKey(scope)) {
      var row, e := RoleRow(human, role, scope, actor, now, None), RoleGranted(human, role, scope, actor);
      AppendKeepsOneLiveRow(o.rows, row);
      forall h, r, k ensures Balance(o.log + [e], h, r, k) == Bit(HeldLive(o.rows + [row], h, r, k)) {
        AppendHolds(o.rows, row, h, r, k);
        AppendBalances(o.log, e, h, r, k);
      }
    }
  }

  lemma RevokeBalances(o: Office, human: HumanId, role: Role, scope: Scope, actor: HumanId, now: Time)
    requires OneLiveRow(o.rows) && LogBalances(o)
    ensures var o' := Revoked(o, human, role, scope, actor, now); OneLiveRow(o'.rows) && LogBalances(o')
  {
    var o' := Revoked(o, human, role, scope, actor, now);
    if HeldLive(o.rows, human, role, ScopeKey(scope)) {
      forall h, r, k ensures Balance(o'.log, h, r, k) == Bit(HeldLive(o'.rows, h, r, k)) {
        AppendBalances(o.log, RoleRevoked(human, role, scope, actor), h, r, k);
        if HeldLive(o.rows, h, r, k) && !(h == human && r == role && k == ScopeKey(scope)) {
          var i :| 0 <= i < |o.rows| && o.rows[i].Live() && o.rows[i].Is(h, r, k);
          assert o'.rows[i].Live() && o'.rows[i].Is(h, r, k);
        }
      }
    }
  }

  lemma StepBalances(o: Office, act: Act, now: Time)
    requires OneLiveRow(o.rows) && LogBalances(o)
    ensures OneLiveRow(Next(o, act, now).rows) && LogBalances(Next(o, act, now))
  {
    if Step(o, act, now).Ok? {
      match act
      case Bootstrap(id, role) =>
        GrantBalances(o.(accounts := o.accounts[id := Account(true, Person)]), id, role, None, id, now);
      case CreateHuman(me, id, role, scope) =>
        if role.Some? {
          GrantBalances(o.(accounts := o.accounts[id := Account(true, Person)]), id, role.value, scope, me, now);
        }
      case GrantRole(me, target, role, scope) => GrantBalances(o, target, role, scope, me, now);
      case RevokeRole(me, target, role, scope) => RevokeBalances(o, target, role, scope, me, now);
      case _ =>
    }
  }

  /** After any run, granted events less revoked events is 1 for a role held live and 0 for any other. */
  lemma {:induction false} EventsMatchRoles(o: Office, acts: seq<(Act, Time)>)
    requires OneLiveRow(o.rows) && LogBalances(o)
    ensures OneLiveRow(Run(o, acts).rows) && LogBalances(Run(o, acts))
    decreases |acts|
  {
    if acts != [] {
      StepBalances(o, acts[0].0, acts[0].1);
      EventsMatchRoles(Next(o, acts[0].0, acts[0].1), acts[1..]);
    }
  }

  /** Grants less revocations whose subject names the venture. */
  function SubjectBalance(log: seq<Event>, human: HumanId, role: Role, name: VentureId): int {
    if log == [] then 0
    else
      var e := log[|log| - 1];
      SubjectBalance(log[..|log| - 1], human, role, name)
      + (if e.human != human || e.role != role || e.Subject() != name then 0 else if e.RoleGranted? then 1 else -1)
  }

  /** Subjects lump the role scoped to the empty name in with the role for every venture. */
  lemma {:induction false} SubjectsLumpTheEmptyName(log: seq<Event>, human: HumanId, role: Role, name: VentureId)
    ensures SubjectBalance(log, human, role, name)
            == if name == "" then 0
               else Balance(log, human, role, name) + if name == ALL_VENTURES then Balance(log, human, role, "") else 0
  {
    if log != [] {
      SubjectsLumpTheEmptyName(log[..|log| - 1], human, role, name);
    }
  }

  /**
   * So read by their subjects, the events of a human and role say what is held in every venture
   * exactly when the role is not held under the empty venture name.
   */
  lemma {:induction false} SubjectsMatchRolesIff(o: Office, acts: seq<(Act, Time)>, human: HumanId, role: Role)
    requires OneLiveRow(o.rows) && LogBalances(o)
    ensures var end := Run(o, acts);
            (forall name :: SubjectBalance(end.log, human, role, name) == Bit(HeldLive(end.rows, human, role, name)))
            <==> !HeldLive(end.rows, human, role, "")
  {
    EventsMatchRoles(o, acts);
    var end := Run(o, acts);
    forall name
      ensures SubjectBalance(end.log, human, role, name)
              == if name == "" then 0
                 else Bit(HeldLive(end.rows, human, role, name))
                      + if name == ALL_VENTURES then Bit(HeldLive(end.rows, human, role, "")) else 0
    {
      SubjectsLumpTheEmptyName(end.log, human, role, name);
      assert Balance(end.log, human, role, name) == Bit(HeldLive(end.rows, human, role, name));
      assert Balance(end.log, human, role, "") == Bit(HeldLive(end.rows, human, role, ""));
    }
    assert SubjectBalance(end.log, human, role, "") == 0;
  }

  // ------------------------------------------------ provenance

  /** Row `j` was its holder's when that holder granted row `i`, and was strong enough to. */
  ghost predicate Link(rows: seq<RoleRow>, j: nat, i: nat) {
    && j < i < |rows| && rows[j].human == rows[i].grantedBy && rows[i].human != rows[i].grantedBy
    && rows[j].grantedAt <= rows[i].grantedAt
    && (rows[j].Live() || rows[j].revoked.value.at >= rows[i].grantedAt)
    && Outranks(rows[j].role, rows[i].role)
  }

  ghost predicate Linked(rows: seq<RoleRow>, i: nat) {
    exists j: nat :: Link(rows, j, i)
  }

  /** One self-grant, the first row; every later row has a granter entitled to give it. */
  ghost predicate Provenanced(o: Office, now: Time) {
    && (o.rows != [] ==> o.rows[0].human == o.rows[0].grantedBy)
    && (forall i: nat :: 0 < i < |o.rows| ==> Linked(o.rows, i))
    && (forall i :: 0 <= i < |o.rows| ==> o.rows[i].grantedAt <= now && o.rows[i].human in o.accounts)
  }

  lemma AppendKeepsLinks(rows: seq<RoleRow>, row: RoleRow)
    ensures forall i: nat :: i < |rows| && Linked(rows, i) ==> Linked(rows + [row], i)
  {
    forall i: nat | i < |rows| && Linked(rows, i) ensures Linked(rows + [row], i) {
      var j: nat :| Link(rows, j, i);
      assert Link(rows + [row], j, i);
    }
  }

  lemma GrantKeepsProvenance(o: Office, me: HumanId, human: HumanId, role: Role, scope: Scope, before: Time, now: Time)
    requires Provenanced(o, before) && before <= now
    requires me in o.accounts && MayGrant(Read(o, me), role, Some(human), false).Ok?
    requires Granted(o, human, role, scope, me, now).Ok?
    ensures Provenanced(Granted(o, human, role, scope, me, now).value, now)
  {
    var o' := Granted(o, human, role, scope, me, now).value;
    if o' != o {
      var row := RoleRow(human, role, scope, me, now, None);
      AppendKeepsLinks(o.rows, row);
      var actor := Read(o, me);
      var held := actor.StrongestRole(None).value;
      var pair :| pair in actor.roles && pair.0 == held;
      var j: nat :| j < |o.rows| && o.rows[j].human == me && o.rows[j].Live() && o.rows[j].role == held;
      assert Link(o'.rows, j, |o.rows|);
      forall i: nat | 0 < i < |o'.rows| ensures Linked(o'.rows, i) {
        if i < |o.rows| {
          assert Linked(o.rows, i);
        }
      }
    }
  }

  lemma RevokeKeepsProvenance(o: Office, human: HumanId, role: Role, scope: Scope, actor: HumanId, before: Time,
                              now: Time)
    requires Provenanced(o, before) && before <= now
    ensures Provenanced(Revoked(o, human, role, scope, actor, now), now)
  {
    var o' := Revoked(o, human, role, scope, actor, now);
    forall i: nat | 0 < i < |o'.rows| ensures Linked(o'.rows, i) {
      assert Linked(o.rows, i);
      var j: nat :| Link(o.rows, j, i);
      assert Link(o'.rows, j, i);
    }
  }

  lemma HoldersHaveAccounts(o: Office, now: Time)
    requires Provenanced(o, now) && o.rows != []
    ensures o.accounts != map[]
  {
    assert o.rows[0].human in o.accounts;
  }

  lemma StepKeepsProvenance(o: Office, act: Act, before: Time, now: Time)
    requires Provenanced(o, before) && before <= now
    ensures Provenanced(Next(o, act, now), now)
  {
    if Step(o, act, now).Ok? {
      match act
      case Bootstrap(id, role) =>
        if o.rows != [] {
          HoldersHaveAccounts(o, before);
        }
      case CreateHuman(me, id, role, scope) =>
        var made := o.(accounts := o.accounts[id := Account(true, Person)]);
        if role.Some? {
          assert Read(made, me) == Read(o, me);
          GrantKeepsProvenance(made, me, id, role.value, scope, before, now);
        }
      case GrantRole(me, target, role, scope) => GrantKeepsProvenance(o, me, target, role, scope, before, now);
      case RevokeRole(me, target, role, scope) => RevokeKeepsProvenance(o, target, role, scope, me, before, now);
      case _ =>
    }
  }

  ghost predicate Ordered(from: Time, acts: seq<(Act, Time)>)
    decreases |acts|
  {
    acts != [] ==> from <= acts[0].1 && Ordered(acts[0].1, acts[1..])
  }

  lemma {:induction false} RolesHaveProvenance(o: Office, from: Time, acts: seq<(Act, Time)>)
    requires Provenanced(o, from) && Ordered(from, acts)
    ensures Provenanced(Run(o, acts), if acts == [] then from else acts[|acts| - 1].1)
    decreases |acts|
  {
    if acts != [] {
      StepKeepsProvenance(o, acts[0].0, from, acts[0].1);
      RolesHaveProvenance(Next(o, acts[0].0, acts[0].1), acts[0].1, acts[1..]);
    }
  }

  /** Row `i`, the row its granter held, the row that one's granter held, and so on. */
  ghost predicate Chain(rows: seq<RoleRow>, chain: seq<nat>) {
    chain != [] && forall k :: 0 <= k < |chain| - 1 ==> Link(rows, chain[k + 1], chain[k])
  }

  /** Following `granted_by` back from any row, live or revoked, ends at the bootstrap self-grant. */
  lemma {:induction false} ProvenanceEndsAtBootstrap(o: Office, now: Time, i: nat) returns (chain: seq<nat>)
    requires Provenanced(o, now) && i < |o.rows|
    ensures Chain(o.rows, chain) && chain[0] == i && chain[|chain| - 1] == 0
    ensures o.rows[0].human == o.rows[0].grantedBy
    decreases i
  {
    if i == 0 {
      chain := [0];
    } else {
      assert Linked(o.rows, i);
      var j: nat :| Link(o.rows, j, i);
      var rest := ProvenanceEndsAtBootstrap(o, now, j);
      chain := [i] + rest;
    }
  }

  /** Along any chain authority strictly falls from granter to granted until both are the top role. */
  lemma {:induction false} AuthorityFallsAlongChains(rows: seq<RoleRow>, chain: seq<nat>, k: nat)
    requires Chain(rows, chain) && 0 < k < |chain|
    ensures chain[k] < |rows| && chain[0] < |rows|
    ensures rows[chain[k]].role == Ivan || Rank(rows[chain[k]].role) >= Rank(rows[chain[0]].role) + k
    decreases k
  {
    assert Link(rows, chain[k - 1 + 1], chain[k - 1]);
    if k > 1 {
      AuthorityFallsAlongChains(rows, chain, k - 1);
    }
  }

  // ------------------------------------------------ where runs begin

  /**
   * From no accounts at all every office any run of acts reaches has one live row a role, a log that
   * says what is held, founders who are people, and every role traced to its granter.
   */
  lemma {:induction false} ReachableOffices(acts: seq<(Act, Time)>, from: Time)
    requires Ordered(from, acts)
    ensures var o := Run(Office(map[], [], []), acts);
            && OneLiveRow(o.rows) && LogBalances(o) && OnlyPeopleAreIvan(o)
            && Provenanced(o, if acts == [] then from else acts[|acts| - 1].1)
  {
    var start := Office(map[], [], []);
    assert OneLiveRow(start.rows) && LogBalances(start) && OnlyPeopleAreIvan(start) && Provenanced(start, from);
    EventsMatchRoles(start, acts);
    NoFixtureIsEverIvan(start, acts);
    RolesHaveProvenance(start, from, acts);
  }

  /** Bootstrapping the first human as a founder makes the administrator every later run keeps. */
  lemma {:induction false} BootstrapMakesAnAdministrator(id: HumanId, now: Time, acts: seq<(Act, Time)>)
    ensures exists h :: Administers(Run(Next(Office(map[], [], []), Bootstrap(id, Ivan), now), acts), h)
  {
    var o := Next(Office(map[], [], []), Bootstrap(id, Ivan), now);
    assert !HeldLive([], id, Ivan, ALL_VENTURES);
    assert o.rows == [RoleRow(id, Ivan, None, id, now, None)];
    assert o.rows[0].human == id && o.rows[0].role == Ivan && o.rows[0].Live();
    assert Administers(o, id);
    AlwaysAnAdministrator(o, acts);
  }

  // ------------------------------------------------ the tables as the broker updates them

  /** The accounts whose row differs. */
  function Changed(before: map<HumanId, Account>, after: map<HumanId, Account>): set<HumanId> {
    set h | h in after && (h !in before || before[h] != after[h])
  }

  class HumanRegistry {
    var accounts: map<HumanId, Account>
    var rows: seq<RoleRow>
    var log: seq<Event>

    constructor ()
      ensures State() == Office(map[], [], [])
    {
      accounts, rows, log := map[], [], [];
    }

    function State(): Office
      reads this
    {
      Office(accounts, rows, log)
    }

    /** True when a row was inserted; the event follows the row count. */
    method Grant(human: HumanId, role: Role, scope: Scope, actor: HumanId, now: Time) returns (r: Result<bool, Refusal>)
      modifies this
      ensures var spec := Granted(old(State()), human, role, scope, actor, now);
              if spec.Err? then r == Err(spec.error) && State() == old(State())
              else State() == spec.value && r == Ok(!HeldLive(old(rows), human, role, ScopeKey(scope)))
    {
      if human !in accounts {
        return Err(NoSuchHuman);
      }
      if role == Ivan {
        if accounts[human].origin != Person {
          return Err(NotAPerson);
        }
      }
      var granted := !HeldLive(rows, human, role, ScopeKey(scope));
      if granted {
        rows := rows + [RoleRow(human, role, scope, actor, now, None)];
      }
      if granted {
        log := log + [RoleGranted(human, role, scope, actor)];
      }
      return Ok(granted);
    }

    method Revoke(human: HumanId, role: Role, scope: Scope, actor: HumanId, now: Time) returns (removed: bool)
      modifies this
      ensures State() == Revoked(old(State()), human, role, scope, actor, now)
      ensures removed <==> HeldLive(old(rows), human, role, ScopeKey(scope))
    {
      removed := false;
      var updated: seq<RoleRow> := [];
      ghost var target := RevokedRows(rows, human, role, ScopeKey(scope), Revocation(now, actor));
      for i := 0 to |rows|
        invariant rows == old(rows) && log == old(log) && accounts == old(accounts)
        invariant |updated| == i && forall k :: 0 <= k < i ==> updated[k] == target[k]
        invariant removed <==> exists k :: 0 <= k < i && rows[k].Live() && rows[k].Is(human, role, ScopeKey(scope))
      {
        if rows[i].Live() && rows[i].Is(human, role, ScopeKey(scope)) {
          updated := updated + [rows[i].(revoked := Some(Revocation(now, actor)))];
          removed := true;
        } else {
          updated := updated + [rows[i]];
        }
      }
      assert updated == target;
      assert removed <==> HeldLive(rows, human, role, ScopeKey(scope));
      if !removed {
        return;
      }
      rows := updated;
      log := log + [RoleRevoked(human, role, scope, actor)];
    }

    method CountActiveAdministrators(excluding: Option<HumanId>) returns (n: nat)
      ensures n == |set h | h in accounts && Administers(State(), h) && excluding != Some(h)|
    {
      var found := set h | h in accounts && accounts[h].active && HoldsIvan(rows, h) && excluding != Some(h);
      assert found == set h | h in accounts && Administers(State(), h) && excluding != Some(h);
      return |found|;
    }

    /** Refuses exactly the last active administrator, whatever is about to be done to them. */
    method AssertNotTheLastAdministrator(human: HumanId) returns (refused: bool)
      ensures refused <==> IsLastAdministrator(State(), human)
    {
      if !HoldsIvan(rows, human) {
        return false;
      }
      var n := CountActiveAdministrators(Some(human));
      ghost var others := set h | h in accounts && Administers(State(), h) && Some(human) != Some(h);
      assert forall h :: Administers(State(), h) && h != human ==> h in others;
      assert n == 0 <==> others == {};
      return n == 0;
    }

    /** The role route: guard the actor, guard the last administrator, then write. */
    method SetRole(me: HumanId, target: HumanId, role: Role, scope: Scope, revoking: bool, now: Time)
      returns (refusal: Option<Refusal>)
      modifies this
      ensures var act := if revoking then RevokeRole(me, target, role, scope) else GrantRole(me, target, role, scope);
              var spec := Step(old(State()), act, now);
              State() == Next(old(State()), act, now) && refusal == if spec.Err? then Some(spec.error) else None
    {
      if me !in accounts || target !in accounts {
        return Some(NoSuchHuman);
      }
      var allowed := MayGrant(Read(State(), me), role, Some(target), revoking);
      if allowed.Err? {
        return Some(allowed.error);
      }
      if revoking {
        if role == Ivan {
          var last := AssertNotTheLastAdministrator(target);
          if last {
            return Some(LastAdministrator);
          }
        }
        var _ := Revoke(target, role, scope, me, now);
        return None;
      }
      var granted := Grant(target, role, scope, me, now);
      return if granted.Err? then Some(granted.error) else None;
    }

    method SetHumanStatus(me: HumanId, target: HumanId, active: bool, now: Time) returns (refusal: Option<Refusal>)
      modifies this
      ensures var spec := Step(old(State()), SetStatus(me, target, active), now);
              State() == Next(old(State()), SetStatus(me, target, active), now)
              && refusal == if spec.Err? then Some(spec.error) else None
    {
      if me !in accounts {
        return Some(NoSuchHuman);
      }
      var authority := Authorize(Read(State(), me), ComplianceOfficer, None);
      if authority.Err? {
        return Some(authority.error);
      }
      if target !in accounts {
        return Some(NoSuchHuman);
      }
      if !active {
        var last := AssertNotTheLastAdministrator(target);
        if last {
          return Some(LastAdministrator);
        }
        if me == target {
          return Some(SelfSuspension);
        }
      }
      accounts := accounts[target := accounts[target].(active := active)];
      return None;
    }

    /** Every active fixture but the actor; the count is the accounts it suspended. */
    method SuspendTestFixtures(me: HumanId, now: Time) returns (r: Result<nat, Refusal>)
      modifies this
      ensures var spec := Step(old(State()), SuspendFixtures(me), now);
              State() == Next(old(State()), SuspendFixtures(me), now)
              && (r.Err? <==> spec.Err?) && (r.Err? ==> r.error == spec.error)
      ensures r.Ok? ==> r.value == |Changed(old(accounts), accounts)|
    {
      if me !in accounts {
        return Err(NoSuchHuman);
      }
      var authority := Authorize(Read(State(), me), Ivan, None);
      if authority.Err? {
        return Err(authority.error);
      }
      var before := accounts;
      var targets := set h | h in accounts && accounts[h].active && accounts[h].origin == TestFixture && h != me;
      accounts := map h | h in accounts :: if h in targets then accounts[h].(active := false) else accounts[h];
      assert accounts == Suspended(before, me);
      assert targets == Changed(before, accounts);
      return Ok(|targets|);
    }
  }
}
