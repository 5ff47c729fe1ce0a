/**
 * Forge Operating Instructions: one live text per module, superseded and never edited, and
 * the reconstruction of which Forge version a past submission was judged against.
 */
module Instructions {
  import opened Text
  import opened Wrappers
  import opened Versions

  type ForgeId = string
  type ModuleId = string
  type Content = map<string, string>
  type Time = int

  /** SHA-256 as an opaque injective value of what it is taken over: a module's text, or a department's joined lines. */
  datatype Hash = InstructionHash(content: Content) | BasisHash(text: string)

  const REQUIRED_SECTIONS: set<string> := {
    "what_it_does", "what_it_does_not_do", "inputs", "correct_sequence",
    "failure_signatures", "retry_vs_escalate", "never_do", "compliance_coupling"
  }

  datatype Row = Row(version: string, apiVersion: Version, sensitivity: Sensitivity, hash: Hash,
                     authoredAt: Time, supersededAt: Option<Time>) {
    predicate Live() { supersededAt.None? }

    predicate InForce(at: Time) {
      authoredAt <= at && (supersededAt.None? || supersededAt.value > at)
    }
  }

  /** One module's rows in the order they were authored. */
  type History = seq<Row>

  datatype Draft = Draft(version: string, apiVersion: Version, content: Content,
                         sensitivity: Sensitivity, rationale: Option<string>)

  datatype AuthorError = MissingSections | EmptySections | RationaleRequired | VersionExists | ModuleUnknown

  /** The guards, and then the table's key and its reference to the module registry. */
  function Objection(h: History, registered: bool, draft: Draft): Option<AuthorError> {
    if exists s :: s in REQUIRED_SECTIONS && s !in draft.content then Some(MissingSections)
    else if exists s :: s in REQUIRED_SECTIONS && draft.content[s] == "" then Some(EmptySections)
    else if draft.sensitivity == MajorMinorPatch && (draft.rationale.None? || Blank(draft.rationale.value))
    then Some(RationaleRequired)
    else if exists i :: 0 <= i < |h| && h[i].version == draft.version then Some(VersionExists)
    else if !registered then Some(ModuleUnknown)
    else None
  }

  /** Every live row closed at `now`. */
  function Superseded(h: History, now: Time): History {
    seq(|h|, i requires 0 <= i < |h| => if h[i].Live() then h[i].(supersededAt := Some(now)) else h[i])
  }

  /** The history after a draft is offered at `now`; a refused draft changes nothing. */
  function Authored(h: History, registered: bool, draft: Draft, now: Time): History {
    if Objection(h, registered, draft).Some? then h else
      Superseded(h, now)
      + [Row(draft.version, draft.apiVersion, draft.sensitivity, InstructionHash(draft.content), now, None)]
  }

  /** A draft is published when it has all eight sections, a reason if every patch decertifies, and is new and known. */
  lemma PublishedIff(h: History, registered: bool, draft: Draft)
    ensures Objection(h, registered, draft).None? <==>
            && (forall s :: s in {"what_it_does", "what_it_does_not_do", "inputs", "correct_sequence",
                                  "failure_signatures", "retry_vs_escalate", "never_do", "compliance_coupling"} ==>
                  s in draft.content && draft.content[s] != "")
            && (draft.sensitivity == MajorMinorPatch ==> draft.rationale.Some? && !AllBlank(draft.rationale.value))
            && (forall i :: 0 <= i < |h| ==> h[i].version != draft.version) && registered
  {
    if draft.rationale.Some? {
      BlankIffAllBlank(draft.rationale.value);
    }
  }

  /** Publishing closes whatever was live at the moment it opens the draft's own row, and alters nothing else. */
  lemma AuthoringTakesEffect(h: History, draft: Draft, now: Time)
    requires Objection(h, true, draft).None?
    ensures var after := Authored(h, true, draft, now);
            && |after| == |h| + 1
            && after[|h|].version == draft.version && after[|h|].apiVersion == draft.apiVersion
            && after[|h|].sensitivity == draft.sensitivity && after[|h|].hash == InstructionHash(draft.content)
            && after[|h|].authoredAt == now && after[|h|].supersededAt.None?
            && (forall i :: 0 <= i < |h| ==>
                  && after[i] == h[i].(supersededAt := after[i].supersededAt)
                  && after[i].supersededAt == if h[i].supersededAt.Some? then h[i].supersededAt else Some(now))
  {
  }

  /** The half-open intervals in force follow one another without gap or overlap, and only the last is open. */
  ghost predicate Chained(h: History, now: Time) {
    && (forall i :: 0 <= i < |h| - 1 ==>
          h[i].supersededAt == Some(h[i + 1].authoredAt) && h[i].authoredAt <= h[i + 1].authoredAt)
    && (h != [] ==> h[|h| - 1].Live() && h[|h| - 1].authoredAt <= now)
  }

  lemma AuthorKeepsChain(h: History, registered: bool, draft: Draft, before: Time, now: Time)
    requires Chained(h, before) && before <= now
    ensures Chained(Authored(h, registered, draft, now), now)
  {
  }

  /** A draft offered at a moment when its module is, or is not, registered. */
  datatype Offer = Offer(draft: Draft, registered: bool, at: Time)

  /** The history a run of offers builds. */
  function Build(h: History, offers: seq<Offer>): History
    decreases |offers|
  {
    if offers == [] then h
    else Build(Authored(h, offers[0].registered, offers[0].draft, offers[0].at), offers[1..])
  }

  ghost predicate Ascending(from: Time, offers: seq<Offer>)
    decreases |offers|
  {
    offers != [] ==> from <= offers[0].at && Ascending(offers[0].at, offers[1..])
  }

  lemma {:induction false} BuildKeepsChain(h: History, from: Time, offers: seq<Offer>)
    requires Chained(h, from) && Ascending(from, offers)
    ensures Chained(Build(h, offers), if offers == [] then from else offers[|offers| - 1].at)
    decreases |offers|
  {
    if offers != [] {
      var first := offers[0];
      AuthorKeepsChain(h, first.registered, first.draft, from, first.at);
      BuildKeepsChain(Authored(h, first.registered, first.draft, first.at), first.at, offers[1..]);
    }
  }

  /** Every history authoring builds from nothing is a chain. */
  lemma {:induction false} HistoriesAreChains(from: Time, offers: seq<Offer>)
    requires Ascending(from, offers)
    ensures Chained(Build([], offers), if offers == [] then from else offers[|offers| - 1].at)
  {
    BuildKeepsChain([], from, offers);
  }

  lemma {:induction false} AuthoredInOrder(h: History, now: Time, i: nat, j: nat)
    requires Chained(h, now) && i <= j < |h|
    ensures h[i].authoredAt <= h[j].authoredAt
    decreases j
  {
    if i < j {
      AuthoredInOrder(h, now, i, j - 1);
    }
  }

  /** The intervals are disjoint: no moment has two rows in force. */
  lemma NeverTwoInForce(h: History, now: Time, i: nat, j: nat, at: Time)
    requires Chained(h, now) && i < |h| && j < |h| && h[i].InForce(at) && h[j].InForce(at)
    ensures i == j
  {
    if i < j {
      AuthoredInOrder(h, now, i + 1, j);
    } else if j < i {
      AuthoredInOrder(h, now, j + 1, i);
    }
  }

  /** They are contiguous: from the first authoring on, some row is in force at every moment. */
  lemma {:induction false} SomeRowInForce(h: History, now: Time, at: Time) returns (i: nat)
    requires Chained(h, now) && h != [] && h[0].authoredAt <= at
    ensures i < |h| && h[i].InForce(at)
  {
    i := |h| - 1;
    while h[i].authoredAt > at
      invariant i < |h| && (i == |h| - 1 || h[i + 1].authoredAt > at)
      decreases i
    {
      i := i - 1;
    }
  }

  datatype BasisError = NoSuchHash | InForceCount(n: nat)

  /** The row whose text carries `hash` and was in force at `at`, if there is one. */
  ghost predicate JudgedAgainst(h: History, hash: Hash, at: Time, version: Version) {
    exists i :: 0 <= i < |h| && h[i].hash == hash && h[i].InForce(at) && h[i].apiVersion == version
  }

  /** Rows with the hash, in table order. */
  function WithHash(h: History, hash: Hash): History {
    if h == [] then [] else (if h[0].hash == hash then [h[0]] else []) + WithHash(h[1..], hash)
  }

  function InForceAt(h: History, at: Time): History {
    if h == [] then [] else (if h[0].InForce(at) then [h[0]] else []) + InForceAt(h[1..], at)
  }

  /** What the broker computes: refuse on no carrier of the hash and on any number in force but one. */
  function VersionInForce(h: History, hash: Hash, at: Time): Result<Version, BasisError> {
    var rows := WithHash(h, hash);
    if rows == [] then Err(NoSuchHash) else
      var inForce := InForceAt(rows, at);
      if |inForce| != 1 then Err(InForceCount(|inForce|)) else Ok(inForce[0].apiVersion)
  }

  lemma {:induction false} SelectedAre(h: History, hash: Hash, at: Time)
    ensures forall r :: r in InForceAt(WithHash(h, hash), at) <==> r in h && r.hash == hash && r.InForce(at)
  {
    if h != [] {
      SelectedAre(h[1..], hash, at);
      var tail := WithHash(h[1..], hash);
      if h[0].hash == hash {
        assert WithHash(h, hash)[1..] == tail;
      } else {
        assert WithHash(h, hash) == tail;
      }
      assert forall r :: r in h <==> r == h[0] || r in h[1..];
    }
  }

  lemma {:induction false} NoneSelected(h: History, hash: Hash, at: Time)
    requires forall j :: 0 <= j < |h| ==> !h[j].InForce(at)
    ensures InForceAt(WithHash(h, hash), at) == []
  {
    if h != [] {
      NoneSelected(h[1..], hash, at);
      WithHashSteps(h, hash);
    }
  }

  lemma WithHashSteps(h: History, hash: Hash)
    requires h != []
    ensures h[0].hash == hash ==> WithHash(h, hash) != [] && WithHash(h, hash)[0] == h[0]
                                  && WithHash(h, hash)[1..] == WithHash(h[1..], hash)
    ensures h[0].hash != hash ==> WithHash(h, hash) == WithHash(h[1..], hash)
  {
  }

  /** Where no two rows are in force at once, at most one is selected. */
  lemma {:induction false} SelectedOnce(h: History, hash: Hash, at: Time)
    requires forall i, j :: 0 <= i < j < |h| ==> !(h[i].InForce(at) && h[j].InForce(at))
    ensures |InForceAt(WithHash(h, hash), at)| <= 1
  {
    if h != [] {
      WithHashSteps(h, hash);
      if h[0].InForce(at) {
        assert forall j :: 0 <= j < |h[1..]| ==> !h[1..][j].InForce(at);
        NoneSelected(h[1..], hash, at);
      } else {
        SelectedOnce(h[1..], hash, at);
      }
    }
  }

  /**
   * On every authored history the reconstruction is exact: it never meets two rows, and it
   * answers `version` just when the row live at that moment carries the hash and that version.
   */
  lemma ReconstructionIsExact(h: History, now: Time, hash: Hash, at: Time, version: Version)
    requires Chained(h, now)
    ensures VersionInForce(h, hash, at) == Ok(version) <==> JudgedAgainst(h, hash, at, version)
    ensures VersionInForce(h, hash, at).Err? ==> VersionInForce(h, hash, at).error in {NoSuchHash, InForceCount(0)}
  {
    forall i, j | 0 <= i < j < |h| ensures !(h[i].InForce(at) && h[j].InForce(at)) {
      if h[i].InForce(at) && h[j].InForce(at) {
        NeverTwoInForce(h, now, i, j, at);
      }
    }
    SelectedOnce(h, hash, at);
    SelectedAre(h, hash, at);
    var inForce := InForceAt(WithHash(h, hash), at);
    if JudgedAgainst(h, hash, at, version) {
      var i :| 0 <= i < |h| && h[i].hash == hash && h[i].InForce(at) && h[i].apiVersion == version;
      assert h[i] in inForce;
    }
    if inForce != [] {
      assert inForce[0] in inForce;
    }
  }

  /** The past does not change its answer: authoring now leaves every earlier moment's reconstruction alone. */
  lemma ThePastStands(h: History, before: Time, registered: bool, draft: Draft, now: Time, hash: Hash, at: Time,
                      version: Version)
    requires Chained(h, before) && before <= now && at < now
    ensures VersionInForce(h, hash, at) == Ok(version)
            <==> VersionInForce(Authored(h, registered, draft, now), hash, at) == Ok(version)
  {
    var later := Authored(h, registered, draft, now);
    AuthorKeepsChain(h, registered, draft, before, now);
    ReconstructionIsExact(h, before, hash, at, version);
    ReconstructionIsExact(later, now, hash, at, version);
    assert forall i :: 0 <= i < |h| ==> (h[i].InForce(at) <==> later[i].InForce(at));
    if JudgedAgainst(h, hash, at, version) {
      var i :| 0 <= i < |h| && h[i].hash == hash && h[i].InForce(at) && h[i].apiVersion == version;
      assert later[i].hash == hash;
    }
  }

  // ------------------------------------------------ the table

  type ModuleKey = (ForgeId, ModuleId)

  function RowsOf(t: map<ModuleKey, History>, key: ModuleKey): History {
    if key in t then t[key] else []
  }

  function LiveRow(h: History): Option<Row> {
    if h == [] then None else if h[0].Live() then Some(h[0]) else LiveRow(h[1..])
  }

  /** On a chain the live row is the last one, the one row in force from its authoring on. */
  lemma {:induction false} LiveIsTheLast(h: History, now: Time)
    requires Chained(h, now)
    ensures LiveRow(h) == if h == [] then None else Some(h[|h| - 1])
  {
    if |h| > 1 {
      assert Chained(h[1..], now);
      LiveIsTheLast(h[1..], now);
    }
  }

  datatype DepartmentError =
    | NoMembers
    | MemberUnknown(mod: ModuleId, error: BasisError)
    | Disagree(versions: set<Version>)

  datatype Member = Member(mod: ModuleId, hash: Hash)

  /** Each member resolves on its own hash. */
  function MemberVersion(t: map<ModuleKey, History>, forge: ForgeId, m: Member, at: Time): Result<Version, BasisError> {
    VersionInForce(RowsOf(t, (forge, m.mod)), m.hash, at)
  }

  method Carrying(h: History, hash: Hash) returns (rows: History)
    ensures rows == WithHash(h, hash)
  {
    rows := [];
    for i := 0 to |h|
      invariant rows + WithHash(h[i..], hash) == WithHash(h, hash)
    {
      WithHashSteps(h[i..], hash);
      assert h[i..][1..] == h[i + 1..];
      if h[i].hash == hash {
        rows := rows + [h[i]];
      }
    }
  }

  method StandingAt(h: History, at: Time) returns (rows: History)
    ensures rows == InForceAt(h, at)
  {
    rows := [];
    for i := 0 to |h|
      invariant rows + InForceAt(h[i..], at) == InForceAt(h, at)
    {
      assert h[i..][1..] == h[i + 1..];
      if h[i].InForce(at) {
        rows := rows + [h[i]];
      }
    }
  }

  /** Every member resolves to `version`. */
  ghost predicate AllResolveTo(t: map<ModuleKey, History>, forge: ForgeId, members: seq<Member>, at: Time,
                               version: Version)
  {
    forall m :: m in members ==> MemberVersion(t, forge, m, at) == Ok(version)
  }

  ghost predicate SomeResolvesTo(t: map<ModuleKey, History>, forge: ForgeId, members: seq<Member>, at: Time,
                                 version: Version)
  {
    exists m :: m in members && MemberVersion(t, forge, m, at) == Ok(version)
  }

  method DecideDepartment(t: map<ModuleKey, History>, forge: ForgeId, members: seq<Member>, at: Time,
                          versions: set<Version>)
    returns (r: Result<Version, DepartmentError>)
    requires members != [] && forall m :: m in members ==>
               MemberVersion(t, forge, m, at).Ok? && MemberVersion(t, forge, m, at).value in versions
    requires forall v :: v in versions ==> SomeResolvesTo(t, forge, members, at, v)
    ensures forall v :: r == Ok(v) <==> AllResolveTo(t, forge, members, at, v)
    ensures r.Err? ==> r.error == Disagree(versions)
    ensures r.Err? ==> forall v :: v in versions <==> SomeResolvesTo(t, forge, members, at, v)
  {
    var first := MemberVersion(t, forge, members[0], at).value;
    assert members[0] in members;
    if |versions| != 1 {
      assert versions != {first};
      assert exists v :: v in versions && v != first;
      return Err(Disagree(versions));
    }
    assert |versions - {first}| == 0;
    return Ok(first);
  }

  class InstructionTable {
    var rows: map<ModuleKey, History>
    const registered: set<ModuleKey>

    constructor (registered: set<ModuleKey>)
      ensures rows == map[] && this.registered == registered
    {
      rows := map[];
      this.registered := registered;
    }

    /** Supersede, then insert, in one transaction. */
    method Author(forge: ForgeId, mod: ModuleId, draft: Draft, now: Time) returns (r: Result<Row, AuthorError>)
      modifies this
      ensures var h, known := old(RowsOf(rows, (forge, mod))), (forge, mod) in registered;
              if Objection(h, known, draft).Some? then r == Err(Objection(h, known, draft).value) && rows == old(rows)
              else
                rows == old(rows)[(forge, mod) := Authored(h, known, draft, now)]
                && rows[(forge, mod)] != [] && r == Ok(rows[(forge, mod)][|rows[(forge, mod)]| - 1])
    {
      var key := (forge, mod);
      var history := RowsOf(rows, key);
      var objection := Objection(history, key in registered, draft);
      if objection.Some? {
        return Err(objection.value);
      }
      var closed: History := [];
      for i := 0 to |history|
        invariant closed == Superseded(history, now)[..i]
      {
        var row := history[i];
        closed := closed + [if row.Live() then row.(supersededAt := Some(now)) else row];
      }
      var row := Row(draft.version, draft.apiVersion, draft.sensitivity, InstructionHash(draft.content), now, None);
      assert closed == Superseded(history, now);
      rows := rows[key := closed + [row]];
      return Ok(row);
    }

    /** One pass for the hash, one for the moment; a basis with no answer or two is refused. */
    method ForgeApiVersionInForce(forge: ForgeId, mod: ModuleId, hash: Hash, at: Time)
      returns (r: Result<Version, BasisError>)
      ensures r == VersionInForce(RowsOf(rows, (forge, mod)), hash, at)
    {
      var carrying := Carrying(RowsOf(rows, (forge, mod)), hash);
      var inForce := StandingAt(carrying, at);
      if carrying == [] {
        return Err(NoSuchHash);
      }
      if |inForce| != 1 {
        return Err(InForceCount(|inForce|));
      }
      return Ok(inForce[0].apiVersion);
    }

    /**
     * The version a department was judged against: one answer when every member resolves to it,
     * whatever order the members come in, and a refusal otherwise.
     */
    method DepartmentApiVersion(forge: ForgeId, members: seq<Member>, at: Time)
      returns (r: Result<Version, DepartmentError>)
      ensures forall v :: r == Ok(v) <==> members != [] && AllResolveTo(rows, forge, members, at, v)
      ensures members == [] <==> r == Err(NoMembers)
      ensures r.Err? && r.error.MemberUnknown? ==>
                exists m :: m in members && m.mod == r.error.mod
                            && MemberVersion(rows, forge, m, at) == Err(r.error.error)
      ensures r.Err? && r.error.Disagree? ==>
                forall v :: v in r.error.versions <==> SomeResolvesTo(rows, forge, members, at, v)
    {
      if members == [] {
        return Err(NoMembers);
      }
      var byVersion: map<Version, seq<ModuleId>> := map[];
      for i := 0 to |members|
        invariant forall k :: 0 <= k < i ==>
                    MemberVersion(rows, forge, members[k], at).Ok?
                    && MemberVersion(rows, forge, members[k], at).value in byVersion
        invariant forall v :: v in byVersion ==> SomeResolvesTo(rows, forge, members, at, v)
      {
        var m := members[i];
        var one := ForgeApiVersionInForce(forge, m.mod, m.hash, at);
        assert m in members && MemberVersion(rows, forge, m, at) == if one.Ok? then Ok(one.value) else Err(one.error);
        if one.Err? {
          return Err(MemberUnknown(m.mod, one.error));
        }
        var sofar := if one.value in byVersion then byVersion[one.value] else [];
        byVersion := byVersion[one.value := sofar + [m.mod]];
      }
      r := DecideDepartment(rows, forge, members, at, byVersion.Keys);
    }
  }
}
