/** The tenant hierarchy, and session quotas checked along its ancestor chain. */
module TenantQuota {
  import opened Sequences
  import opened TenantPaths

  datatype Tier = Developer | Team | Enterprise

  datatype Tenant = Tenant(
    id: string, path: string, name: string, parentId: Option<string>, tier: Tier, maxSessions: int, maxStorageGb: int)

  /** The tenants table, by primary key. */
  type Tenants = map<string, Tenant>

  datatype Error = TenantNotFound | TenantAlreadyExists | DuplicateKey | StillReferenced

  datatype Result<+T> = Ok(value: T) | Err(error: Error)

  predicate PathTaken(tenants: Tenants, path: string) {
    exists k | k in tenants :: tenants[k].path == path
  }

  /** What creation and deletion keep: keys, unique paths, and each path spelled out from its parent's. */
  ghost predicate Hierarchy(tenants: Tenants) {
    && (forall k :: k in tenants ==> tenants[k].id == k)
    && (forall j, k :: j in tenants && k in tenants && tenants[j].path == tenants[k].path ==> j == k)
    && (forall k :: k in tenants && tenants[k].parentId.None? ==> tenants[k].path == k)
    && (forall k :: k in tenants && tenants[k].parentId.Some? ==>
          && tenants[k].parentId.value in tenants
          && tenants[k].path == ChildPath(tenants[tenants[k].parentId.value].path, k))
  }

  function NewPath(tenants: Tenants, parentId: Option<string>, id: string): Option<string> {
    if parentId.None? then Some(id)
    else if parentId.value in tenants then Some(ChildPath(tenants[parentId.value].path, id))
    else None
  }

  function Creation(tenants: Tenants, wanted: Tenant): Result<Tenant> {
    match NewPath(tenants, wanted.parentId, wanted.id)
    case None => Err(TenantNotFound)
    case Some(path) =>
      if PathTaken(tenants, path) then Err(TenantAlreadyExists)
      else if wanted.id in tenants then Err(DuplicateKey)
      else Ok(wanted.(path := path))
  }

  function AfterCreation(tenants: Tenants, wanted: Tenant): Tenants {
    match Creation(tenants, wanted)
    case Ok(tenant) => tenants[tenant.id := tenant]
    case Err(_) => tenants
  }

  predicate HasChildren(tenants: Tenants, id: string) {
    exists k | k in tenants :: tenants[k].parentId == Some(id)
  }

  function AfterDeletion(tenants: Tenants, id: string): Tenants {
    if HasChildren(tenants, id) then tenants else tenants - {id}
  }

  /** The changes a settings update asks for; what is absent stays. */
  datatype Settings = Settings(maxSessions: Option<int>, maxStorageGb: Option<int>, tier: Option<Tier>)

  function WithSettings(tenant: Tenant, s: Settings): Tenant {
    tenant.(
      maxSessions := if s.maxSessions.Some? then s.maxSessions.value else tenant.maxSessions,
      maxStorageGb := if s.maxStorageGb.Some? then s.maxStorageGb.value else tenant.maxStorageGb,
      tier := if s.tier.Some? then s.tier.value else tenant.tier)
  }

  function AfterUpdate(tenants: Tenants, id: string, s: Settings): Tenants {
    if id in tenants then tenants[id := WithSettings(tenants[id], s)] else tenants
  }

  function Default(id: string, name: string): Tenant {
    Tenant(id, id, name, None, Developer, 5, 50)
  }

  const DEFAULT_TENANT := Default("default", "Default").(maxSessions := 100, maxStorageGb := 500)

  /** The tenant a principal's claim asks for. */
  function Claimed(claim: string): Tenant {
    if claim == "" then DEFAULT_TENANT else Default(claim, claim)
  }

  datatype QuotaCheck = QuotaCheck(allowed: bool, tenantId: string, maxSessions: int, currentSessions: int)

  /** The first row at its limit, or the number of rows. */
  function FirstFull(rows: seq<Tenant>, count: string -> nat): (n: nat)
    ensures n <= |rows|
    ensures forall i :: 0 <= i < n ==> count(rows[i].path) < rows[i].maxSessions
    ensures n < |rows| ==> count(rows[n].path) >= rows[n].maxSessions
  {
    if rows == [] || count(rows[0].path) >= rows[0].maxSessions then 0 else 1 + FirstFull(rows[1..], count)
  }

  class TenantService {
    var tenants: Tenants

    constructor ()
      ensures tenants == map[] && Hierarchy(tenants)
    {
      tenants := map[];
    }

    method CreateTenant(wanted: Tenant) returns (r: Result<Tenant>)
      requires Hierarchy(tenants)
      modifies this
      ensures Hierarchy(tenants)
      ensures r == Creation(old(tenants), wanted) && tenants == AfterCreation(old(tenants), wanted)
    {
      var path := wanted.id;
      if wanted.parentId.Some? {
        if wanted.parentId.value !in tenants {
          return Err(TenantNotFound);
        }
        path := ChildPath(tenants[wanted.parentId.value].path, wanted.id);
      }
      if PathTaken(tenants, path) {
        return Err(TenantAlreadyExists);
      }
      if wanted.id in tenants {
        return Err(DuplicateKey);
      }
      CreationKeepsHierarchy(tenants, wanted);
      var tenant := wanted.(path := path);
      tenants := tenants[tenant.id := tenant];
      return Ok(tenant);
    }

    /** The foreign key on the parent refuses to delete a tenant that still has children. */
    method DeleteTenant(id: string) returns (r: Result<bool>)
      requires Hierarchy(tenants)
      modifies this
      ensures Hierarchy(tenants)
      ensures tenants == AfterDeletion(old(tenants), id)
      ensures r == if HasChildren(old(tenants), id) then Err(StillReferenced) else Ok(id in old(tenants))
    {
      if HasChildren(tenants, id) {
        return Err(StillReferenced);
      }
      DeletionKeepsHierarchy(tenants, id);
      r := Ok(id in tenants);
      tenants := tenants - {id};
    }

    method UpdateTenantSettings(id: string, s: Settings) returns (r: Result<Tenant>)
      requires Hierarchy(tenants)
      modifies this
      ensures Hierarchy(tenants)
      ensures tenants == AfterUpdate(old(tenants), id, s)
      ensures r == if id in old(tenants) then Ok(tenants[id]) else Err(TenantNotFound)
    {
      if id !in tenants {
        return Err(TenantNotFound);
      }
      var tenant := tenants[id];
      if s == Settings(None, None, None) {
        assert tenants[id := tenant] == tenants;
        return Ok(tenant);
      }
      UpdateKeepsHierarchy(tenants, id, s);
      tenants := tenants[id := WithSettings(tenant, s)];
      return Ok(tenants[id]);
    }

    /** `sync_tenant_from_principal` and `ensure_default_tenant`: the claimed tenant, created when missing. */
    method SyncFromPrincipal(claim: string) returns (r: Result<Tenant>)
      requires Hierarchy(tenants)
      modifies this
      ensures Hierarchy(tenants)
      ensures var wanted := Claimed(claim);
        && tenants == (if wanted.id in old(tenants) then old(tenants) else AfterCreation(old(tenants), wanted))
        && r == (if wanted.id in old(tenants) then Ok(old(tenants)[wanted.id]) else Creation(old(tenants), wanted))
    {
      var wanted := Claimed(claim);
      if wanted.id in tenants {
        return Ok(tenants[wanted.id]);
      }
      r := CreateTenant(wanted);
    }

    /** `rows`: what the ancestor query returns; `count`: running sessions at or under a path. */
    method CheckQuota(rows: seq<Tenant>, count: string -> nat) returns (check: QuotaCheck)
      ensures var n := FirstFull(rows, count);
        check == if n < |rows| then QuotaCheck(false, rows[n].id, rows[n].maxSessions, count(rows[n].path))
          else if rows == [] then QuotaCheck(true, "", 0, 0)
          else QuotaCheck(
            true, rows[|rows| - 1].id, rows[|rows| - 1].maxSessions, count(rows[|rows| - 1].path))
    {
      for i := 0 to |rows|
        invariant forall j :: 0 <= j < i ==> count(rows[j].path) < rows[j].maxSessions
      {
        var current := count(rows[i].path);
        if current >= rows[i].maxSessions {
          FirstFullIs(rows, count, i);
          return QuotaCheck(false, rows[i].id, rows[i].maxSessions, current);
        }
      }
      FirstFullIs(rows, count, |rows|);
      if rows == [] {
        return QuotaCheck(true, "", 0, 0);
      }
      var leaf := rows[|rows| - 1];
      return QuotaCheck(true, leaf.id, leaf.maxSessions, count(leaf.path));
    }
  }

  lemma FirstFullIs(rows: seq<Tenant>, count: string -> nat, n: nat)
    requires n <= |rows|
    requires forall i :: 0 <= i < n ==> count(rows[i].path) < rows[i].maxSessions
    requires n < |rows| ==> count(rows[n].path) >= rows[n].maxSessions
    ensures FirstFull(rows, count) == n
  {
  }

  // ----- what each operation does to the table -----

  /** A tenant is created iff its parent is there and neither its path nor its id is taken. */
  lemma CreationMeans(tenants: Tenants, wanted: Tenant)
    ensures var parented := wanted.parentId.Some? ==> wanted.parentId.value in tenants;
      var path := if parented && wanted.parentId.Some? then tenants[wanted.parentId.value].path + "." + wanted.id
        else wanted.id;
      var taken := exists k :: k in tenants && tenants[k].path == path;
      var r := Creation(tenants, wanted);
      && (r == Err(TenantNotFound) <==> !parented)
      && (r == Err(TenantAlreadyExists) <==> parented && taken)
      && (r == Err(DuplicateKey) <==> parented && !taken && wanted.id in tenants)
      && (r.Ok? <==> parented && !taken && wanted.id !in tenants)
      && (r.Ok? ==> r.value == wanted.(path := path) && AfterCreation(tenants, wanted) == tenants[wanted.id := r.value])
      && (r.Err? ==> AfterCreation(tenants, wanted) == tenants)
  {
  }

  /** Exactly the tenant itself goes, and only when nobody names it as parent. */
  lemma DeletionMeans(tenants: Tenants, id: string, k: string)
    ensures k in AfterDeletion(tenants, id) <==>
      k in tenants && (k != id || exists j :: j in tenants && tenants[j].parentId == Some(id))
    ensures k in AfterDeletion(tenants, id) ==> AfterDeletion(tenants, id)[k] == tenants[k]
  {
  }

  /** An update changes the settings it gives and nothing else, in no other tenant. */
  lemma UpdateMeans(tenants: Tenants, id: string, s: Settings)
    ensures var after := AfterUpdate(tenants, id, s);
      && after.Keys == tenants.Keys
      && (forall k :: k in tenants && k != id ==> after[k] == tenants[k])
      && (id in tenants ==>
            && after[id].id == tenants[id].id && after[id].path == tenants[id].path
            && after[id].name == tenants[id].name && after[id].parentId == tenants[id].parentId
            && (s.maxSessions.None? ==> after[id].maxSessions == tenants[id].maxSessions)
            && (s.maxSessions.Some? ==> after[id].maxSessions == s.maxSessions.value)
            && (s.maxStorageGb.None? ==> after[id].maxStorageGb == tenants[id].maxStorageGb)
            && (s.maxStorageGb.Some? ==> after[id].maxStorageGb == s.maxStorageGb.value)
            && (s.tier.None? ==> after[id].tier == tenants[id].tier)
            && (s.tier.Some? ==> after[id].tier == s.tier.value))
  {
  }

  /** A principal without a claim belongs to the default tenant; a claim names its tenant, a root with the defaults. */
  lemma ClaimMeans(claim: string)
    ensures claim == "" ==> Claimed(claim) == Tenant("default", "default", "Default", None, Developer, 100, 500)
    ensures claim != "" ==> Claimed(claim) == Tenant(claim, claim, claim, None, Developer, 5, 50)
  {
  }

  // ----- the hierarchy over runs -----

  lemma CreationKeepsHierarchy(tenants: Tenants, wanted: Tenant)
    requires Hierarchy(tenants)
    ensures Hierarchy(AfterCreation(tenants, wanted))
  {
  }

  lemma DeletionKeepsHierarchy(tenants: Tenants, id: string)
    requires Hierarchy(tenants)
    ensures Hierarchy(AfterDeletion(tenants, id))
  {
  }

  lemma UpdateKeepsHierarchy(tenants: Tenants, id: string, s: Settings)
    requires Hierarchy(tenants)
    ensures Hierarchy(AfterUpdate(tenants, id, s))
  {
  }

  /** The tenant and its parents up to the root. */
  function Chain(tenants: Tenants, id: string): (chain: set<string>)
    requires Hierarchy(tenants) && id in tenants
    ensures chain <= tenants.Keys
    decreases |tenants[id].path|
  {
    if tenants[id].parentId.None? then {id} else {id} + Chain(tenants, tenants[id].parentId.value)
  }

  /** With dot-free ids, the tenants whose path is a dotted prefix are the parent chain, and nobody else. */
  lemma {:induction false} PathAncestorsAreChain(tenants: Tenants, id: string, other: string)
    requires Hierarchy(tenants) && id in tenants && other in tenants
    requires forall k :: k in tenants ==> DotFree(k)
    ensures SegmentPrefix(tenants[other].path, tenants[id].path) <==> other in Chain(tenants, id)
    decreases |tenants[id].path|
  {
    var upper := tenants[other].path;
    if tenants[id].parentId.None? {
      if upper + "." <= id {
        DottedPathHasDot(upper, id);
      }
    } else {
      var parent := tenants[id].parentId.value;
      PathAncestorsAreChain(tenants, parent, other);
      DottedPrefixOfChild(upper, tenants[parent].path, id);
    }
  }

  /** Any dotted id breaks it: its path looks like a child's, whatever the tree says. */
  lemma DottedIdBreaksChain(id: string, n: nat) returns (tenants: Tenants, other: string)
    requires n < |id| && id[n] == '.'
    ensures Hierarchy(tenants) && id in tenants && other in tenants
    ensures SegmentPrefix(tenants[other].path, tenants[id].path) && other !in Chain(tenants, id)
  {
    other := id[..n];
    tenants := map[other := Default(other, ""), id := Default(id, "")];
    assert |other| < |id|;
    assert other + "." == id[..n + 1];
    assert tenants[other].path == other && tenants[id].path == id;
  }

  // ----- what the ancestor query returns -----

  /** Every tenant the pattern matches, once, shortest path first. */
  ghost predicate AncestorRows(tenants: Tenants, path: string, rows: seq<Tenant>) {
    && (forall i :: 0 <= i < |rows| ==>
          rows[i].id in tenants && tenants[rows[i].id] == rows[i] && MatchesBelow(path, rows[i].path))
    && (forall k :: k in tenants && MatchesBelow(path, tenants[k].path) ==>
          exists i :: 0 <= i < |rows| && rows[i] == tenants[k])
    && (forall i, j :: 0 <= i < j < |rows| ==> rows[i] != rows[j] && |rows[i].path| <= |rows[j].path|)
  }

  /** A tenant is among the rows iff the pattern of its path matches. */
  lemma RowsAreMatches(tenants: Tenants, path: string, rows: seq<Tenant>, k: string)
    requires AncestorRows(tenants, path, rows) && k in tenants
    ensures tenants[k] in rows <==> MatchesBelow(path, tenants[k].path)
  {
  }

  /** For any ids: the path of everyone up the parent chain is a dotted prefix. */
  lemma {:induction false} ChainIsPrefixes(tenants: Tenants, id: string, k: string)
    requires Hierarchy(tenants) && id in tenants && k in Chain(tenants, id)
    ensures k in tenants && SegmentPrefix(tenants[k].path, tenants[id].path)
    decreases |tenants[id].path|
  {
    if k != id {
      var parent := tenants[id].parentId.value;
      ChainIsPrefixes(tenants, parent, k);
      PrefixOfParentIsPrefixOfChild(tenants[k].path, tenants[parent].path, id);
    }
  }

  /** For any ids: an ancestor whose own path holds no backslash is always among the rows. */
  lemma RowsHoldChain(tenants: Tenants, id: string, rows: seq<Tenant>, k: string)
    requires Hierarchy(tenants) && id in tenants && AncestorRows(tenants, tenants[id].path, rows)
    requires k in Chain(tenants, id) && '\\' !in tenants[k].path
    ensures tenants[k] in rows
  {
    ChainIsPrefixes(tenants, id, k);
    SegmentIsStringPrefix(tenants[k].path, tenants[id].path);
    PrefixMatches(tenants[id].path, tenants[k].path);
    RowsAreMatches(tenants, tenants[id].path, rows, k);
  }

  /** For any ids, without backslashes up the chain: the rows are exactly the chain iff no outsider matches. */
  lemma RowsAreChainIff(tenants: Tenants, id: string, rows: seq<Tenant>)
    requires Hierarchy(tenants) && id in tenants && AncestorRows(tenants, tenants[id].path, rows)
    requires forall k :: k in Chain(tenants, id) ==> '\\' !in tenants[k].path
    ensures (forall k :: k in tenants ==> (tenants[k] in rows <==> k in Chain(tenants, id)))
      <==> (forall k :: k in tenants && MatchesBelow(tenants[id].path, tenants[k].path) ==> k in Chain(tenants, id))
  {
    forall k | k in tenants
      ensures tenants[k] in rows <==> MatchesBelow(tenants[id].path, tenants[k].path)
      ensures k in Chain(tenants, id) ==> tenants[k] in rows
    {
      RowsAreMatches(tenants, tenants[id].path, rows, k);
      if k in Chain(tenants, id) {
        RowsHoldChain(tenants, id, rows, k);
      }
    }
  }

  /**
   For any ids, without percent signs and backslashes in paths: iff no outsider's path is a prefix,
   underscores standing for any character (as `team` is of `teams`, and `a_b` of `axb`).
   */
  lemma WildcardRowsAreChainIff(tenants: Tenants, id: string, rows: seq<Tenant>)
    requires Hierarchy(tenants) && id in tenants && AncestorRows(tenants, tenants[id].path, rows)
    requires forall k :: k in tenants ==> '%' !in tenants[k].path && '\\' !in tenants[k].path
    ensures (forall k :: k in tenants ==> (tenants[k] in rows <==> k in Chain(tenants, id)))
      <==> (forall k :: k in tenants && WildcardPrefix(tenants[k].path, tenants[id].path) ==> k in Chain(tenants, id))
  {
    RowsAreChainIff(tenants, id, rows);
    forall k | k in tenants
      ensures MatchesBelow(tenants[id].path, tenants[k].path) <==> WildcardPrefix(tenants[k].path, tenants[id].path)
    {
      UnderscoreMatchesIff(tenants[id].path, tenants[k].path);
    }
  }

  lemma SegmentIsStringPrefix(upper: string, path: string)
    ensures SegmentPrefix(upper, path) ==> upper <= path
  {
    if upper + "." <= path {
      DotFollows(upper, path);
    }
  }

  // ----- quotas over runs of starts and stops -----

  /** How running sessions are counted against a path: any rule that counts only paths starting with it. */
  type Covers = (string, string) -> bool

  ghost predicate CountsPrefixes(covers: Covers) {
    forall upper, path :: covers(upper, path) ==> upper <= path
  }

  /** Running sessions, by the path of the tenant each belongs to. */
  function CountAt(sessions: seq<string>, covers: Covers, upper: string): nat {
    |Filter(sessions, (s: string) => covers(upper, s))|
  }

  function Counter(sessions: seq<string>, covers: Covers): string -> nat {
    (upper: string) => CountAt(sessions, covers, upper)
  }

  datatype System = System(tenants: Tenants, sessions: seq<string>)

  datatype Event =
    | Create(wanted: Tenant)
    | Delete(id: string)
    | Update(updated: string, settings: Settings)
    | Start(path: string, rows: seq<Tenant>)
    | Stop(index: nat)

  predicate Admitted(system: System, covers: Covers, rows: seq<Tenant>) {
    FirstFull(rows, Counter(system.sessions, covers)) == |rows|
  }

  /** A start is checked and then made, with nothing in between. */
  function AfterEvent(system: System, covers: Covers, event: Event): System {
    match event
    case Create(wanted) => system.(tenants := AfterCreation(system.tenants, wanted))
    case Delete(id) => system.(tenants := AfterDeletion(system.tenants, id))
    case Update(id, s) => system.(tenants := AfterUpdate(system.tenants, id, s))
    case Start(path, rows) =>
      if Admitted(system, covers, rows) then system.(sessions := system.sessions + [path]) else system
    case Stop(i) =>
      if i < |system.sessions| then system.(sessions := system.sessions[..i] + system.sessions[i + 1..]) else system
  }

  /** A stop takes exactly the stopped session out of every count, and touches no tenant. */
  lemma StopFreesOne(system: System, covers: Covers, i: nat, upper: string)
    requires i < |system.sessions|
    ensures var after := AfterEvent(system, covers, Stop(i));
      && after.tenants == system.tenants
      && CountAt(after.sessions, covers, upper) + (if covers(upper, system.sessions[i]) then 1 else 0)
         == CountAt(system.sessions, covers, upper)
  {
    var all, below := system.sessions, (path: string) => covers(upper, path);
    assert all == all[..i] + ([all[i]] + all[i + 1..]);
    FilterConcat(all[..i], [all[i]] + all[i + 1..], below);
    FilterConcat([all[i]], all[i + 1..], below);
    FilterConcat(all[..i], all[i + 1..], below);
    assert [all[i]][1..] == [];
  }

  ghost predicate Escaped(tenants: Tenants) {
    forall k :: k in tenants ==> '\\' !in tenants[k].path
  }

  lemma CountAppend(sessions: seq<string>, covers: Covers, upper: string, path: string)
    ensures CountAt(sessions + [path], covers, upper)
      == CountAt(sessions, covers, upper) + (if covers(upper, path) then 1 else 0)
  {
    FilterConcat(sessions, [path], (s: string) => covers(upper, s));
  }

  lemma CountRemove(sessions: seq<string>, covers: Covers, upper: string, i: nat)
    requires i < |sessions|
    ensures CountAt(sessions[..i] + sessions[i + 1..], covers, upper) <= CountAt(sessions, covers, upper)
  {
    var keep := (s: string) => covers(upper, s);
    FilterConcat(sessions[..i], sessions[i + 1..], keep);
    FilterConcat(sessions[..i], [sessions[i]] + sessions[i + 1..], keep);
    FilterConcat([sessions[i]], sessions[i + 1..], keep);
    assert sessions == sessions[..i] + ([sessions[i]] + sessions[i + 1..]);
  }

  /**
   An admitted start, for any paths and any counting rule: a tenant whose pattern matches stays within
   its limit, one that is counted but not matched grows unchecked, and no other count changes.
   */
  lemma AdmittedStartKeepsBounds(system: System, covers: Covers, path: string, rows: seq<Tenant>, k: string)
    requires AncestorRows(system.tenants, path, rows)
    requires Admitted(system, covers, rows) && k in system.tenants
    ensures var after := AfterEvent(system, covers, Start(path, rows));
      var tenant := system.tenants[k];
      var was, now := CountAt(system.sessions, covers, tenant.path), CountAt(after.sessions, covers, tenant.path);
      if !covers(tenant.path, path) then now == was
      else now == was + 1 && (MatchesBelow(path, tenant.path) ==> now <= tenant.maxSessions)
  {
    var tenant := system.tenants[k];
    CountAppend(system.sessions, covers, tenant.path, path);
    if MatchesBelow(path, tenant.path) {
      var i :| 0 <= i < |rows| && rows[i] == tenant;
      assert Counter(system.sessions, covers)(rows[i].path) < rows[i].maxSessions;
    }
  }

  /** `a_b`, at its limit with one session, and `axb`, where nothing runs. */
  function Wild(): Tenant { Default("a_b", "").(maxSessions := 1) }

  function Stranger(): Tenant { Default("axb", "") }

  function TwoTenants(): Tenants { map["a_b" := Wild(), "axb" := Stranger()] }

  lemma TwoTenantsStand()
    ensures Hierarchy(TwoTenants()) && TwoTenants().Keys == {"a_b", "axb"}
  {
  }

  lemma BothMatchStranger()
    ensures MatchesBelow("axb", "a_b") && MatchesBelow("axb", "axb")
  {
    UnderscoreMatchesIff("axb", "a_b");
    UnderscoreMatchesIff("axb", "axb");
  }

  lemma TwoRows(path: string, a: Tenant, b: Tenant)
    requires a.id != b.id && |a.path| <= |b.path| && MatchesBelow(path, a.path) && MatchesBelow(path, b.path)
    ensures AncestorRows(map[a.id := a, b.id := b], path, [a, b])
  {
    assert [a, b][0] == a && [a, b][1] == b;
  }

  lemma StrangerRows()
    ensures AncestorRows(TwoTenants(), "axb", [Wild(), Stranger()])
  {
    BothMatchStranger();
    TwoRows("axb", Wild(), Stranger());
  }

  lemma OneSession(path: string, covers: Covers, upper: string)
    ensures CountAt([path], covers, upper) == Counter([path], covers)(upper) == if covers(upper, path) then 1 else 0
  {
    assert [path][1..] == [];
  }

  /**
   An underscore id denies a stranger: one session in `a_b`, at its limit, and nothing can start in
   `axb`, where nothing runs.
   */
  lemma UnderscoreDeniesStranger(covers: Covers) returns (system: System, rows: seq<Tenant>)
    requires CountsPrefixes(covers) && covers("a_b", "a_b")
    ensures Hierarchy(system.tenants) && "axb" in system.tenants && AncestorRows(system.tenants, "axb", rows)
    ensures CountAt(system.sessions, covers, "axb") == 0 < system.tenants["axb"].maxSessions
    ensures !Admitted(system, covers, rows) && rows[FirstFull(rows, Counter(system.sessions, covers))].id == "a_b"
  {
    system := System(TwoTenants(), ["a_b"]);
    rows := [Wild(), Stranger()];
    TwoTenantsStand();
    StrangerRows();
    assert "a_b"[1] != "axb"[1] && !("axb" <= "a_b");
    OneSession("a_b", covers, "a_b");
    OneSession("a_b", covers, "axb");
  }

  /** A backslash id bypasses its quota: its own pattern misses it, so every start in it is admitted, at any count. */
  lemma BackslashBypassesQuota(front: string, rest: string) returns (tenants: Tenants, id: string)
    requires Plain(front) && (rest == "" || rest[0] != '\\')
    ensures id == front + "\\" + rest && id in tenants && tenants[id].path == id && Hierarchy(tenants)
    ensures AncestorRows(tenants, id, [])
    ensures forall sessions, covers :: Admitted(System(tenants, sessions), covers, [])
  {
    id := front + "\\" + rest;
    tenants := map[id := Default(id, "")];
    EscapeMisses(id, front, rest);
  }

  lemma EarlierRowHasRoom(rows: seq<Tenant>, count: string -> nat, tenant: Tenant)
    requires FirstFull(rows, count) < |rows| && tenant in rows
    requires forall i, j :: 0 <= i < j < |rows| ==> |rows[i].path| <= |rows[j].path|
    ensures var full := rows[FirstFull(rows, count)];
      count(full.path) >= full.maxSessions
      && (|tenant.path| < |full.path| ==> count(tenant.path) < tenant.maxSessions)
  {
    var n := FirstFull(rows, count);
    var i :| 0 <= i < |rows| && rows[i] == tenant;
    if i < n {
      assert count(rows[i].path) < rows[i].maxSessions;
    }
  }

  /**
   A denial names the first row at its limit: every row before it, and every tenant (`k`) that matches with
   a shorter path, still has room.
   */
  lemma DenialNamesFirstFull(system: System, covers: Covers, path: string, rows: seq<Tenant>, k: string)
    requires AncestorRows(system.tenants, path, rows) && !Admitted(system, covers, rows)
    requires k in system.tenants && MatchesBelow(path, system.tenants[k].path)
    ensures var n := FirstFull(rows, Counter(system.sessions, covers));
      var tenant := system.tenants[k];
      && n < |rows|
      && (forall i :: 0 <= i < n ==> CountAt(system.sessions, covers, rows[i].path) < rows[i].maxSessions)
      && CountAt(system.sessions, covers, rows[n].path) >= rows[n].maxSessions
      && (|tenant.path| < |rows[n].path| ==> CountAt(system.sessions, covers, tenant.path) < tenant.maxSessions)
  {
    EarlierRowHasRoom(rows, Counter(system.sessions, covers), system.tenants[k]);
  }

  /** With plain paths the denial names the root-most ancestor at its limit: any other full one lies deeper. */
  lemma DenialNamesRootmostFull(system: System, covers: Covers, path: string, rows: seq<Tenant>, k: string)
    requires Hierarchy(system.tenants) && AncestorRows(system.tenants, path, rows) && !Admitted(system, covers, rows)
    requires forall j :: j in system.tenants ==> Plain(system.tenants[j].path)
    requires k in system.tenants && system.tenants[k].path <= path
    requires CountAt(system.sessions, covers, system.tenants[k].path) >= system.tenants[k].maxSessions
    ensures var n := FirstFull(rows, Counter(system.sessions, covers));
      && n < |rows| && rows[n].path <= path
      && CountAt(system.sessions, covers, rows[n].path) >= rows[n].maxSessions
      && (rows[n].id == k || rows[n].path < system.tenants[k].path)
  {
    var n := FirstFull(rows, Counter(system.sessions, covers));
    var full, tenant := rows[n], system.tenants[k];
    PlainMatchesIff(path, tenant.path);
    PlainMatchesIff(path, full.path);
    DenialNamesFirstFull(system, covers, path, rows, k);
    LongerPrefix(full.path, tenant.path, path);
  }

  /** Of two prefixes of one string, the one that is not shorter is the same or extends the other. */
  lemma LongerPrefix(a: string, b: string, path: string)
    requires a <= path && b <= path && |a| <= |b|
    ensures a == b || a < b
  {
    assert a == path[..|a|] && b == path[..|b|];
  }

  ghost predicate WithinQuota(system: System, covers: Covers) {
    forall k :: k in system.tenants ==>
      CountAt(system.sessions, covers, system.tenants[k].path) <= system.tenants[k].maxSessions
  }

  /** Starts are checked against the real rows; a new or changed limit is not below what already runs. */
  ghost predicate Fair(system: System, covers: Covers, event: Event) {
    match event
    case Create(wanted) =>
      var r := Creation(system.tenants, wanted);
      r.Ok? ==> '\\' !in r.value.path && CountAt(system.sessions, covers, r.value.path) <= wanted.maxSessions
    case Delete(_) => true
    case Update(id, s) =>
      id in system.tenants && s.maxSessions.Some? ==>
        CountAt(system.sessions, covers, system.tenants[id].path) <= s.maxSessions.value
    case Start(path, rows) => AncestorRows(system.tenants, path, rows)
    case Stop(_) => true
  }

  ghost predicate Safe(system: System, covers: Covers) {
    Hierarchy(system.tenants) && Escaped(system.tenants) && WithinQuota(system, covers)
  }

  lemma StopKeepsQuota(system: System, covers: Covers, i: nat)
    requires WithinQuota(system, covers)
    ensures WithinQuota(AfterEvent(system, covers, Stop(i)), covers)
  {
    if i < |system.sessions| {
      forall k | k in system.tenants
        ensures CountAt(system.sessions[..i] + system.sessions[i + 1..], covers, system.tenants[k].path)
          <= system.tenants[k].maxSessions
      {
        CountRemove(system.sessions, covers, system.tenants[k].path, i);
      }
    }
  }

  lemma StartKeepsQuota(system: System, covers: Covers, path: string, rows: seq<Tenant>)
    requires Safe(system, covers) && CountsPrefixes(covers) && AncestorRows(system.tenants, path, rows)
    ensures WithinQuota(AfterEvent(system, covers, Start(path, rows)), covers)
  {
    if Admitted(system, covers, rows) {
      var after := AfterEvent(system, covers, Start(path, rows));
      forall k | k in after.tenants
        ensures CountAt(after.sessions, covers, after.tenants[k].path) <= after.tenants[k].maxSessions
      {
        AdmittedStartKeepsBounds(system, covers, path, rows, k);
        if covers(system.tenants[k].path, path) {
          PrefixMatches(path, system.tenants[k].path);
        }
      }
    }
  }

  lemma EventKeepsSafe(system: System, covers: Covers, event: Event)
    requires Safe(system, covers) && CountsPrefixes(covers) && Fair(system, covers, event)
    ensures Safe(AfterEvent(system, covers, event), covers)
  {
    match event
    case Create(wanted) => CreationKeepsHierarchy(system.tenants, wanted);
    case Delete(id) => DeletionKeepsHierarchy(system.tenants, id);
    case Update(id, s) => UpdateKeepsHierarchy(system.tenants, id, s);
    case Start(path, rows) => StartKeepsQuota(system, covers, path, rows);
    case Stop(i) => StopKeepsQuota(system, covers, i);
  }

  ghost predicate FairRun(system: System, covers: Covers, events: seq<Event>)
    decreases |events|
  {
    events != [] ==>
      Fair(system, covers, events[0]) && FairRun(AfterEvent(system, covers, events[0]), covers, events[1..])
  }

  function AfterEvents(system: System, covers: Covers, events: seq<Event>): System
    decreases |events|
  {
    if events == [] then system else AfterEvents(AfterEvent(system, covers, events[0]), covers, events[1..])
  }

  /** Over whole runs of creations, deletions, updates, starts and stops every subtree stays within its limit. */
  lemma {:induction false} RunsStayWithinQuota(system: System, covers: Covers, events: seq<Event>)
    requires Safe(system, covers) && CountsPrefixes(covers) && FairRun(system, covers, events)
    ensures Safe(AfterEvents(system, covers, events), covers)
    decreases |events|
  {
    if events != [] {
      EventKeepsSafe(system, covers, events[0]);
      RunsStayWithinQuota(AfterEvent(system, covers, events[0]), covers, events[1..]);
    }
  }

  // ----- the same for any paths and any limits -----

  /**
   The bound an event leaves tenant `k` with: a limit set below what already runs counts as what runs,
   and a start that is counted against `k` but missed by its pattern raises it by one.
   */
  function Ceiling(system: System, covers: Covers, event: Event, k: string, bound: int): int {
    match event
    case Create(wanted) =>
      var r := Creation(system.tenants, wanted);
      if r.Ok? && k == wanted.id then Max(wanted.maxSessions, CountAt(system.sessions, covers, r.value.path)) else bound
    case Delete(_) => bound
    case Update(id, s) =>
      if id == k && k in system.tenants && s.maxSessions.Some? then
        Max(s.maxSessions.value, CountAt(system.sessions, covers, system.tenants[k].path))
      else bound
    case Start(path, rows) =>
      if k in system.tenants && covers(system.tenants[k].path, path) && !MatchesBelow(path, system.tenants[k].path) then
        bound + 1
      else bound
    case Stop(_) => bound
  }

  function CeilingAfter(system: System, covers: Covers, events: seq<Event>, k: string, bound: int): int
    decreases |events|
  {
    if events == [] then bound
    else
      CeilingAfter(
        AfterEvent(system, covers, events[0]), covers, events[1..], k, Ceiling(system, covers, events[0], k, bound))
  }

  ghost predicate Bounded(system: System, covers: Covers, k: string, bound: int) {
    k in system.tenants ==>
      && system.tenants[k].maxSessions <= bound
      && CountAt(system.sessions, covers, system.tenants[k].path) <= bound
  }

  /** The rows each start is checked against are what the query returns at that time. */
  ghost predicate RealRows(system: System, covers: Covers, events: seq<Event>)
    decreases |events|
  {
    events != [] ==>
      && (events[0].Start? ==> AncestorRows(system.tenants, events[0].path, events[0].rows))
      && RealRows(AfterEvent(system, covers, events[0]), covers, events[1..])
  }

  lemma EventKeepsBound(system: System, covers: Covers, event: Event, k: string, bound: int)
    requires Bounded(system, covers, k, bound)
    requires event.Start? ==> AncestorRows(system.tenants, event.path, event.rows)
    ensures Bounded(AfterEvent(system, covers, event), covers, k, Ceiling(system, covers, event, k, bound))
  {
    if k in system.tenants {
      match event
      case Start(path, rows) =>
        if Admitted(system, covers, rows) { AdmittedStartKeepsBounds(system, covers, path, rows, k); }
      case Stop(i) =>
        if i < |system.sessions| { CountRemove(system.sessions, covers, system.tenants[k].path, i); }
      case _ =>
    }
  }

  /**
   Over any run, for any ids, limits and counting rule: a tenant never counts more than its limit, what
   ran when that limit was set, and the starts its pattern missed since.
   */
  lemma {:induction false} RunsStayUnderCeiling(
    system: System, covers: Covers, events: seq<Event>, k: string, bound: int)
    requires Bounded(system, covers, k, bound) && RealRows(system, covers, events)
    ensures Bounded(
      AfterEvents(system, covers, events), covers, k, CeilingAfter(system, covers, events, k, bound))
    decreases |events|
  {
    if events != [] {
      EventKeepsBound(system, covers, events[0], k, bound);
      RunsStayUnderCeiling(
        AfterEvent(system, covers, events[0]), covers, events[1..], k, Ceiling(system, covers, events[0], k, bound));
    }
  }

  // ----- tenants created from a login claim -----

  /** Creating the claimed tenant can only fail on a path conflict, and for a dot-free claim there is none. */
  lemma ClaimConflictIff(tenants: Tenants, claim: string)
    requires Hierarchy(tenants) && Claimed(claim).id !in tenants
    ensures Creation(tenants, Claimed(claim)).Err? <==> PathTaken(tenants, Claimed(claim).id)
    ensures DotFree(claim) ==> Creation(tenants, Claimed(claim)) == Ok(Claimed(claim))
  {
    var id := Claimed(claim).id;
    if DotFree(claim) {
      assert DotFree(id);
      forall k | k in tenants ensures tenants[k].path != id {
        if tenants[k].parentId.Some? {
          var parent := tenants[tenants[k].parentId.value].path;
          assert tenants[k].path[|parent|] == '.';
          assert tenants[k].path[|parent|] in tenants[k].path;
        }
      }
    }
  }
}
