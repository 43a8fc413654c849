/**
 * The people hook: the mapping of raw `people` rows (with their joined
 * memberships) to `Person` records, and the duplicate-membership report,
 * which groups membership rows by normalised email, keeps the groups with
 * more than one membership, and summarises each group's tiers with their
 * latest renewal.
 */
module People {
  import opened Optional
  import opened Seqs
  import opened Text

  // ---------------------------------------------------------------------
  // Person rows

  /** A membership joined onto a person row. Ids are given as their `toString()` text. */
  datatype JoinedMembership = JoinedMembership(id: Option<string>, tier: Option<string>, status: Option<string>,
                                               lastRenewal: Option<string>)

  /** `row.memberships`: absent or null, a single object, or an array. */
  datatype Join = NoJoin | JoinOne(membership: JoinedMembership) | JoinMany(memberships: seq<JoinedMembership>)

  /** A row of the `people` query; `id`, `householdId` and `membershipId` are their `toString()` text. */
  datatype PersonRow = PersonRow(
    id: Option<string>,
    fullName: Option<string>,
    name: Option<string>,
    email: Option<string>,
    address: Option<string>,
    householdId: Option<string>,
    membershipId: Option<string>,
    memberships: Join)

  datatype Person = Person(
    id: string,
    name: string,
    email: string,
    address: string,
    householdId: Option<string>,
    membershipId: Option<string>,
    membershipTier: Option<string>,
    membershipStatus: Option<string>,
    lastRenewal: Option<string>)

  /** The membership a row is shown with: the object itself, the first of an array, or none. */
  function JoinedOf(j: Join): (m: Option<JoinedMembership>)
    ensures j.NoJoin? ==> m.None?
    ensures j.JoinOne? ==> m == Some(j.membership)
    ensures j.JoinMany? ==> (m.Some? <==> |j.memberships| > 0) && (m.Some? ==> m.value == j.memberships[0])
  {
    match j
    case NoJoin => None
    case JoinOne(m) => Some(m)
    case JoinMany(ms) => if |ms| > 0 then Some(ms[0]) else None
  }

  /** `membership?.field || undefined`. */
  function JoinedField(m: Option<JoinedMembership>, field: JoinedMembership -> Option<string>): Option<string> {
    if m.Some? then OrUndefined(field(m.value)) else None
  }

  /** One row as a `Person`, every field falling back as the row's text allows. */
  function ToPerson(row: PersonRow): (p: Person)
    ensures p.name == if Truthy(row.fullName) then row.fullName.value
                      else if Truthy(row.name) then row.name.value else ""
    ensures Truthy(row.membershipId) ==> p.membershipId == row.membershipId
    ensures !Truthy(row.membershipId) ==> p.membershipId == JoinedField(JoinedOf(row.memberships), (x: JoinedMembership) => x.id)
    ensures p.membershipTier.Some? ==> Truthy(p.membershipTier)
  {
    var m := JoinedOf(row.memberships);
    Person(
      OrElse(row.id, ""),
      OrElse(row.fullName, OrElse(row.name, "")),
      OrElse(row.email, ""),
      OrElse(row.address, ""),
      OrUndefined(row.householdId),
      if Truthy(row.membershipId) then row.membershipId else JoinedField(m, (x: JoinedMembership) => x.id),
      JoinedField(m, (x: JoinedMembership) => x.tier),
      JoinedField(m, (x: JoinedMembership) => x.status),
      JoinedField(m, (x: JoinedMembership) => x.lastRenewal))
  }

  /** The answer of the people query: an error (an `Error` instance or not, with its message) or the rows. */
  datatype PeopleAnswer = PeopleFailed(isError: bool, message: string) | PeopleRows(data: Option<seq<PersonRow>>)

  /** The hook's `people` and `error` state after a fetch. */
  datatype PeopleState = PeopleState(people: seq<Person>, error: Option<string>)

  /**
   * `fetchPeople`: on success every row, in order, as a person (none for
   * null data) and no error; on failure the previous people stay and the
   * error message is recorded.
   */
  function FetchPeople(answer: PeopleAnswer, previous: seq<Person>): (st: PeopleState)
    ensures answer.PeopleFailed? ==>
      st.people == previous && st.error == Some(if answer.isError then answer.message else "Failed to fetch people")
    ensures answer.PeopleRows? && answer.data.None? ==> st == PeopleState([], None)
    ensures answer.PeopleRows? && answer.data.Some? ==>
      && st.error == None
      && |st.people| == |answer.data.value|
      && forall i :: 0 <= i < |st.people| ==> st.people[i] == ToPerson(answer.data.value[i])
  {
    match answer
    case PeopleFailed(isError, message) =>
      PeopleState(previous, Some(if isError then message else "Failed to fetch people"))
    case PeopleRows(data) =>
      var rows := if data.Some? then data.value else [];
      PeopleState(seq(|rows|, i requires 0 <= i < |rows| => ToPerson(rows[i])), None)
  }

  /** An empty array join shows no membership, so its fields fall back to the row's own or to undefined. */
  lemma EmptyJoinShowsNothing(row: PersonRow)
    requires row.memberships == JoinMany([])
    ensures var p := ToPerson(row);
      p.membershipTier == None && p.membershipStatus == None && p.lastRenewal == None
      && p.membershipId == OrUndefined(row.membershipId)
  {
  }

  // ---------------------------------------------------------------------
  // Duplicate memberships

  /** A row of the `memberships` query. */
  datatype MembershipRecord = MembershipRecord(id: string, customerEmail: Option<string>, status: Option<string>,
                                               tier: Option<string>, lastRenewal: Option<string>)

  /** A row of the people query used for names. */
  datatype PersonContact = PersonContact(id: string, fullName: Option<string>, email: Option<string>)

  datatype TierInfo = TierInfo(tier: string, lastRenewal: Option<string>)

  datatype DuplicateMembership = DuplicateMembership(email: string, personName: Option<string>, membershipCount: nat,
                                                     tiers: seq<TierInfo>)

  /** The answer of the memberships query. */
  datatype MembershipsAnswer = MembershipsFailed | MembershipsRows(data: Option<seq<MembershipRecord>>)

  /**
   * `email.toLowerCase().trim()`: a run of the lower-cased email that
   * neither starts nor ends with white space and holds no upper-case letter.
   */
  function Normalize(email: string): (key: string)
    ensures |key| <= |email|
    ensures |key| > 0 ==> !IsSpace(key[0]) && !IsSpace(key[|key| - 1])
    ensures forall i :: 0 <= i < |key| ==> !('A' <= key[i] <= 'Z')
  {
    TrimmedLowerShape(email);
    Trim(Lower(email))
  }

  lemma TrimmedLowerShape(email: string)
    ensures var key := Trim(Lower(email));
      && |key| <= |email|
      && (|key| > 0 ==> !IsSpace(key[0]) && !IsSpace(key[|key| - 1]))
      && forall i :: 0 <= i < |key| ==> !('A' <= key[i] <= 'Z')
  {
    var lowered := Lower(email);
    TrimStartDropsLeadingSpace(lowered);
    var start := TrimStart(lowered);
    TrimEndDropsTrailingSpace(start);
    var key := TrimEnd(start);
    forall i | 0 <= i < |key| ensures !('A' <= key[i] <= 'Z') {
      assert key[i] == start[i];
      assert start[i] == lowered[|lowered| - |start| + i];
    }
  }

  /** The person's email is set and normalises to `key`. */
  predicate Matches(p: PersonContact, key: string) {
    Truthy(p.email) && Normalize(p.email.value) == key
  }

  /** The name the email lookup finds for `key`: that of the last matching person, `''` for one without a name. */
  function NameFor(people: seq<PersonContact>, key: string): (name: Option<string>)
    ensures name.Some? ==> exists i :: 0 <= i < |people| && Matches(people[i], key)
                                       && name.value == OrElse(people[i].fullName, "")
    decreases |people|
  {
    if |people| == 0 then None
    else
      var p := people[|people| - 1];
      if Matches(p, key) then Some(OrElse(p.fullName, "")) else NameFor(people[..|people| - 1], key)
  }

  /** The `allPeople?.forEach` that fills `emailToPersonMap`. */
  method EmailToPersonMap(people: seq<PersonContact>) returns (m: map<string, string>)
    ensures forall key :: key in m <==> NameFor(people, key).Some?
    ensures forall key :: key in m ==> NameFor(people, key) == Some(m[key])
  {
    m := map[];
    for j := 0 to |people|
      invariant forall key :: key in m <==> NameFor(people[..j], key).Some?
      invariant forall key :: key in m ==> NameFor(people[..j], key) == Some(m[key])
    {
      var person := people[j];
      assert people[..j + 1][..j] == people[..j];
      if Truthy(person.email) {
        m := m[Normalize(person.email.value) := OrElse(person.fullName, "")];
      }
    }
    assert people[..|people|] == people;
  }

  /** The lookup finds a name exactly when some person matches. */
  lemma {:induction false} NameFoundIffMatch(people: seq<PersonContact>, key: string)
    ensures NameFor(people, key).Some? <==> exists i :: 0 <= i < |people| && Matches(people[i], key)
    decreases |people|
  {
    if |people| > 0 && !Matches(people[|people| - 1], key) {
      var init := people[..|people| - 1];
      NameFoundIffMatch(init, key);
      if exists i :: 0 <= i < |people| && Matches(people[i], key) {
        var i :| 0 <= i < |people| && Matches(people[i], key);
        assert init[i] == people[i];
      }
    }
  }

  /** When person `i` is the last that matches, the lookup finds their name. */
  lemma {:induction false} LatestPersonWins(people: seq<PersonContact>, key: string, i: nat)
    requires i < |people| && Matches(people[i], key)
    requires forall j :: i < j < |people| ==> !Matches(people[j], key)
    ensures NameFor(people, key) == Some(OrElse(people[i].fullName, ""))
    decreases |people|
  {
    if i < |people| - 1 {
      var init := people[..|people| - 1];
      assert !Matches(people[|people| - 1], key);
      forall j | i < j < |init| ensures !Matches(init[j], key) {
        assert init[j] == people[j];
      }
      LatestPersonWins(init, key, i);
    }
  }

  /** The membership's email is set and normalises to `key`. */
  function InGroup(key: string): MembershipRecord -> bool {
    (m: MembershipRecord) => Truthy(m.customerEmail) && Normalize(m.customerEmail.value) == key
  }

  /** The memberships grouped under `key`, in order. */
  function Group(ms: seq<MembershipRecord>, key: string): seq<MembershipRecord> {
    Filter(ms, InGroup(key))
  }

  /** The normalised emails of the memberships that have one, in order, one entry per membership. */
  function EmailKeys(ms: seq<MembershipRecord>): seq<string>
    decreases |ms|
  {
    if |ms| == 0 then []
    else
      var m := ms[|ms| - 1];
      EmailKeys(ms[..|ms| - 1]) + (if Truthy(m.customerEmail) then [Normalize(m.customerEmail.value)] else [])
  }

  lemma EmailKeysSnoc(ms: seq<MembershipRecord>, m: MembershipRecord)
    ensures EmailKeys(ms + [m]) == EmailKeys(ms) + (if Truthy(m.customerEmail) then [Normalize(m.customerEmail.value)] else [])
  {
    assert (ms + [m])[..|ms|] == ms;
  }

  /** A membership with an email appends its normalised email to the keys. */
  lemma EmailKeysSnocEmail(ms: seq<MembershipRecord>, m: MembershipRecord)
    requires Truthy(m.customerEmail)
    ensures EmailKeys(ms + [m]) == EmailKeys(ms) + [Normalize(m.customerEmail.value)]
  {
    EmailKeysSnoc(ms, m);
  }

  /** The email of every membership that has one is among the keys. */
  lemma {:induction false} EmailKeysComplete(ms: seq<MembershipRecord>, i: nat)
    requires i < |ms| && Truthy(ms[i].customerEmail)
    ensures Normalize(ms[i].customerEmail.value) in EmailKeys(ms)
    decreases |ms|
  {
    if i < |ms| - 1 {
      var init := ms[..|ms| - 1];
      assert init[i] == ms[i];
      EmailKeysComplete(init, i);
    }
  }

  /** A key with any membership is one of the emails. */
  lemma GroupedKeyIsEmail(ms: seq<MembershipRecord>, key: string)
    requires |Group(ms, key)| > 0
    ensures key in EmailKeys(ms)
  {
    var m := Group(ms, key)[0];
    assert m in ms && InGroup(key)(m);
    var i :| 0 <= i < |ms| && ms[i] == m;
    EmailKeysComplete(ms, i);
  }

  /** `emailGroups` and its insertion order after the memberships `ms`. */
  ghost predicate GroupedAs(groups: map<string, seq<MembershipRecord>>, order: seq<string>, ms: seq<MembershipRecord>) {
    GroupOrderOf(groups, order, ms) && GroupValuesOf(groups, ms)
  }

  /** The keys of `emailGroups` are the emails of `ms` in order of first appearance. */
  ghost predicate GroupOrderOf(groups: map<string, seq<MembershipRecord>>, order: seq<string>, ms: seq<MembershipRecord>) {
    && order == Dedup(EmailKeys(ms))
    && (forall k :: k in groups <==> k in order)
  }

  /** Each entry of `emailGroups` is its email's group over `ms`. */
  ghost predicate GroupValuesOf(groups: map<string, seq<MembershipRecord>>, ms: seq<MembershipRecord>) {
    forall k :: k in groups ==> groups[k] == Group(ms, k)
  }

  /** A membership without an email joins no group. */
  lemma UngroupedStep(groups: map<string, seq<MembershipRecord>>, order: seq<string>, m: MembershipRecord,
                      counted: seq<MembershipRecord>)
    requires GroupedAs(groups, order, counted) && !Truthy(m.customerEmail)
    ensures GroupedAs(groups, order, counted + [m])
  {
    EmailKeysSnoc(counted, m);
    assert EmailKeys(counted) + [] == EmailKeys(counted);
    forall k | k in groups ensures Group(counted + [m], k) == groups[k] {
      FilterSnoc(counted, m, InGroup(k));
    }
  }

  /** Setting the group of a membership's email appends that email to the order if it is new. */
  lemma GroupOrderStep(groups: map<string, seq<MembershipRecord>>, order: seq<string>, m: MembershipRecord,
                       counted: seq<MembershipRecord>, v: seq<MembershipRecord>)
    requires GroupOrderOf(groups, order, counted) && Truthy(m.customerEmail)
    ensures GroupOrderOf(groups[Normalize(m.customerEmail.value) := v],
                         if Normalize(m.customerEmail.value) in groups then order else order + [Normalize(m.customerEmail.value)],
                         counted + [m])
  {
    EmailKeysSnocEmail(counted, m);
    var e := Normalize(m.customerEmail.value);
    KeyOrderSnoc(groups, order, EmailKeys(counted), e, v, EmailKeys(counted + [m]), if e in groups then order else order + [e]);
  }

  /** The group found for a membership's email is that email's group so far, empty when the email is new. */
  lemma GroupExisting(groups: map<string, seq<MembershipRecord>>, order: seq<string>, m: MembershipRecord,
                      counted: seq<MembershipRecord>)
    requires GroupOrderOf(groups, order, counted) && GroupValuesOf(groups, counted) && Truthy(m.customerEmail)
    ensures var e := Normalize(m.customerEmail.value);
      (if e in groups then groups[e] else []) == Group(counted, e)
  {
    var e := Normalize(m.customerEmail.value);
    if e !in groups {
      DedupSnoc(EmailKeys(counted), e);
      if |Group(counted, e)| > 0 {
        GroupedKeyIsEmail(counted, e);
      }
    }
  }

  /** A membership with email `e` extends only `e`'s group. */
  lemma GroupValueStep(groups: map<string, seq<MembershipRecord>>, m: MembershipRecord,
                       counted: seq<MembershipRecord>, existing: seq<MembershipRecord>)
    requires GroupValuesOf(groups, counted) && Truthy(m.customerEmail)
    requires existing == Group(counted, Normalize(m.customerEmail.value))
    ensures GroupValuesOf(groups[Normalize(m.customerEmail.value) := existing + [m]], counted + [m])
  {
    var e := Normalize(m.customerEmail.value);
    FilterSnoc(counted, m, InGroup(e));
    forall k | k in groups && k != e ensures Group(counted + [m], k) == groups[k] {
      FilterSnoc(counted, m, InGroup(k));
    }
  }

  /** One step of the `allMemberships?.forEach` that fills `emailGroups`. */
  method AddToGroups(groups: map<string, seq<MembershipRecord>>, order: seq<string>, membership: MembershipRecord,
                     ghost counted: seq<MembershipRecord>)
    returns (groups': map<string, seq<MembershipRecord>>, order': seq<string>)
    requires GroupedAs(groups, order, counted)
    ensures GroupedAs(groups', order', counted + [membership])
  {
    groups', order' := groups, order;
    if !Truthy(membership.customerEmail) {
      UngroupedStep(groups, order, membership, counted);
      return;
    }
    var normalizedEmail := Normalize(membership.customerEmail.value);
    ghost var existing := if normalizedEmail in groups then groups[normalizedEmail] else [];
    GroupExisting(groups, order, membership, counted);
    GroupValueStep(groups, membership, counted, existing);
    GroupOrderStep(groups, order, membership, counted, existing + [membership]);
    if normalizedEmail !in groups' {
      groups' := groups'[normalizedEmail := []];
      order' := order' + [normalizedEmail];
      UpdateTwice(groups, normalizedEmail, [], existing + [membership]);
    }
    groups' := groups'[normalizedEmail := groups'[normalizedEmail] + [membership]];
  }

  /** A second update of the same key overrides the first. */
  lemma UpdateTwice<K, V>(m: map<K, V>, k: K, a: V, b: V)
    ensures m[k := a][k := b] == m[k := b]
  {
  }

  /** The grouping pass: memberships without an email are skipped, the others grouped by normalised email. */
  method GroupByEmail(ms: seq<MembershipRecord>) returns (groups: map<string, seq<MembershipRecord>>, order: seq<string>)
    ensures GroupedAs(groups, order, ms)
  {
    groups, order := map[], [];
    for j := 0 to |ms|
      invariant GroupedAs(groups, order, ms[..j])
    {
      assert ms[..j + 1] == ms[..j] + [ms[j]];
      groups, order := AddToGroups(groups, order, ms[j], ms[..j]);
    }
    assert ms[..|ms|] == ms;
  }

  /** A group holds exactly the memberships whose email normalises to its key; one without an email is in no group. */
  lemma GroupMembers(ms: seq<MembershipRecord>, key: string, m: MembershipRecord)
    ensures m in Group(ms, key) <==> m in ms && Truthy(m.customerEmail) && Normalize(m.customerEmail.value) == key
  {
  }

  // ---------------------------------------------------------------------
  // Tiers of a group

  /** The truthy tiers of a group's memberships, in order, one entry per membership. */
  function TierKeys(g: seq<MembershipRecord>): seq<string>
    decreases |g|
  {
    if |g| == 0 then []
    else TierKeys(g[..|g| - 1]) + (if Truthy(g[|g| - 1].tier) then [g[|g| - 1].tier.value] else [])
  }

  /** The membership has tier `t` (a truthy one). */
  predicate HasTier(m: MembershipRecord, t: string) {
    Truthy(m.tier) && m.tier.value == t
  }

  /**
   * `tierMap.get(t)` after the memberships `g`: for each membership of
   * tier `t`, in order, the value is replaced by its renewal (or by
   * undefined) when there was no truthy value yet or its renewal is a
   * later string.
   */
  function LatestRenewal(g: seq<MembershipRecord>, t: string): Option<string>
    decreases |g|
  {
    if |g| == 0 then None else Replaced(LatestRenewal(g[..|g| - 1], t), g[|g| - 1], t)
  }

  /** The value of tier `t` once membership `m` has been seen, `r` before. */
  function Replaced(r: Option<string>, m: MembershipRecord, t: string): Option<string> {
    if HasTier(m, t) && (!Truthy(r) || (Truthy(m.lastRenewal) && LexLess(r.value, m.lastRenewal.value)))
    then OrUndefined(m.lastRenewal)
    else r
  }

  /** A membership with a tier appends that tier to the keys. */
  lemma TierKeysSnocTier(g: seq<MembershipRecord>, m: MembershipRecord)
    requires Truthy(m.tier)
    ensures TierKeys(g + [m]) == TierKeys(g) + [m.tier.value]
  {
    TierSnoc(g, m);
  }

  /** The group's tiers in order of first appearance, each with its latest renewal. */
  function ExpectedTiers(g: seq<MembershipRecord>): (tiers: seq<TierInfo>)
    ensures |tiers| == |Dedup(TierKeys(g))|
    ensures forall i :: 0 <= i < |tiers| ==> tiers[i] == TierInfo(Dedup(TierKeys(g))[i], LatestRenewal(g, Dedup(TierKeys(g))[i]))
  {
    var ts := Dedup(TierKeys(g));
    seq(|ts|, i requires 0 <= i < |ts| => TierInfo(ts[i], LatestRenewal(g, ts[i])))
  }

  lemma TierSnoc(g: seq<MembershipRecord>, m: MembershipRecord)
    ensures TierKeys(g + [m]) == TierKeys(g) + (if Truthy(m.tier) then [m.tier.value] else [])
    ensures forall t ::
      LatestRenewal(g + [m], t) == Replaced(LatestRenewal(g, t), m, t)
  {
    assert (g + [m])[..|g|] == g;
  }

  /** A tier never seen has no renewal. */
  lemma {:induction false} UnseenTierHasNoRenewal(g: seq<MembershipRecord>, t: string)
    requires t !in TierKeys(g)
    ensures LatestRenewal(g, t) == None
    decreases |g|
  {
    if |g| > 0 {
      var init := g[..|g| - 1];
      assert TierKeys(g) == TierKeys(init) + (if Truthy(g[|g| - 1].tier) then [g[|g| - 1].tier.value] else []);
      UnseenTierHasNoRenewal(init, t);
    }
  }

  /** `tierMap` and its insertion order after the memberships `g`. */
  ghost predicate TieredAs(tierMap: map<string, Option<string>>, order: seq<string>, g: seq<MembershipRecord>) {
    TierOrderOf(tierMap, order, g) && TierValuesOf(tierMap, g)
  }

  /** The keys of `tierMap` are the tiers of `g` in order of first appearance. */
  ghost predicate TierOrderOf(tierMap: map<string, Option<string>>, order: seq<string>, g: seq<MembershipRecord>) {
    && order == Dedup(TierKeys(g))
    && (forall t :: t in tierMap <==> t in order)
  }

  /** Each entry of `tierMap` is its tier's latest renewal over `g`. */
  ghost predicate TierValuesOf(tierMap: map<string, Option<string>>, g: seq<MembershipRecord>) {
    forall t :: t in tierMap ==> tierMap[t] == LatestRenewal(g, t)
  }

  /** A membership without a truthy tier leaves `tierMap` as it is. */
  lemma UntieredStep(tierMap: map<string, Option<string>>, order: seq<string>, m: MembershipRecord,
                     counted: seq<MembershipRecord>)
    requires TieredAs(tierMap, order, counted) && !Truthy(m.tier)
    ensures TieredAs(tierMap, order, counted + [m])
  {
    TierSnoc(counted, m);
    assert TierKeys(counted) + [] == TierKeys(counted);
  }

  /** Setting the entry of a membership's tier appends that tier to the order if it is new. */
  lemma TierOrderStep(tierMap: map<string, Option<string>>, order: seq<string>, m: MembershipRecord,
                      counted: seq<MembershipRecord>, v: Option<string>)
    requires TierOrderOf(tierMap, order, counted) && Truthy(m.tier)
    ensures TierOrderOf(tierMap[m.tier.value := v], if m.tier.value in tierMap then order else order + [m.tier.value],
                        counted + [m])
  {
    TierKeysSnocTier(counted, m);
    var t := m.tier.value;
    KeyOrderSnoc(tierMap, order, TierKeys(counted), t, v, TierKeys(counted + [m]), if t in tierMap then order else order + [t]);
  }

  /** A membership of tier `t` changes only `t`'s renewal, as `Replaced` says. */
  lemma TierValueStep(tierMap: map<string, Option<string>>, order: seq<string>, m: MembershipRecord,
                      counted: seq<MembershipRecord>)
    requires TierOrderOf(tierMap, order, counted) && TierValuesOf(tierMap, counted) && Truthy(m.tier)
    ensures var t := m.tier.value;
      var existing := if t in tierMap then tierMap[t] else None;
      && existing == LatestRenewal(counted, t)
      && TierValuesOf(tierMap[t := Replaced(existing, m, t)], counted + [m])
  {
    var t := m.tier.value;
    TierSnoc(counted, m);
    if t !in tierMap {
      assert t !in TierKeys(counted) by {
        DedupSnoc(TierKeys(counted), t);
      }
      UnseenTierHasNoRenewal(counted, t);
    }
    forall u | u in tierMap && u != t ensures LatestRenewal(counted + [m], u) == tierMap[u] {
      assert !HasTier(m, u);
    }
  }

  /** One step of the `memberships.forEach` that fills `tierMap`. */
  method AddTier(tierMap: map<string, Option<string>>, order: seq<string>, m: MembershipRecord,
                 ghost counted: seq<MembershipRecord>)
    returns (tierMap': map<string, Option<string>>, order': seq<string>)
    requires TieredAs(tierMap, order, counted)
    ensures TieredAs(tierMap', order', counted + [m])
  {
    tierMap', order' := tierMap, order;
    if !Truthy(m.tier) {
      UntieredStep(tierMap, order, m, counted);
      return;
    }
    var tier := m.tier.value;
    var existingRenewal := if tier in tierMap' then tierMap'[tier] else None;
    TierValueStep(tierMap, order, m, counted);
    if !Truthy(existingRenewal) || (Truthy(m.lastRenewal) && LexLess(existingRenewal.value, m.lastRenewal.value)) {
      TierOrderStep(tierMap, order, m, counted, OrUndefined(m.lastRenewal));
      if tier !in tierMap' {
        order' := order' + [tier];
      }
      tierMap' := tierMap'[tier := OrUndefined(m.lastRenewal)];
    } else {
      TierOrderStep(tierMap, order, m, counted, existingRenewal);
      assert tierMap'[tier := existingRenewal] == tierMap';
    }
  }

  /** The tier summary of one group: `tierMap` filled, then its entries in insertion order. */
  method TierSummary(g: seq<MembershipRecord>) returns (tiers: seq<TierInfo>)
    ensures tiers == ExpectedTiers(g)
  {
    var tierMap: map<string, Option<string>> := map[];
    var order: seq<string> := [];
    for j := 0 to |g|
      invariant TieredAs(tierMap, order, g[..j])
    {
      assert g[..j + 1] == g[..j] + [g[j]];
      tierMap, order := AddTier(tierMap, order, g[j], g[..j]);
    }
    assert g[..|g|] == g;
    tiers := [];
    for i := 0 to |order|
      invariant |tiers| == i
      invariant forall k :: 0 <= k < i ==> tiers[k] == TierInfo(order[k], LatestRenewal(g, order[k]))
    {
      assert order[i] in order;
      tiers := tiers + [TierInfo(order[i], tierMap[order[i]])];
    }
  }

  /** The latest renewal is the greatest non-empty renewal of the tier, or none when it has none. */
  lemma {:induction false} LatestRenewalIsMax(g: seq<MembershipRecord>, t: string)
    ensures LatestRenewal(g, t).None? <==> forall i :: 0 <= i < |g| && HasTier(g[i], t) ==> !Truthy(g[i].lastRenewal)
    ensures LatestRenewal(g, t).Some? ==>
      && Truthy(LatestRenewal(g, t))
      && (exists i :: 0 <= i < |g| && HasTier(g[i], t) && g[i].lastRenewal == LatestRenewal(g, t))
      && (forall i :: 0 <= i < |g| && HasTier(g[i], t) && Truthy(g[i].lastRenewal) ==>
            !LexLess(LatestRenewal(g, t).value, g[i].lastRenewal.value))
    decreases |g|
  {
    if |g| > 0 {
      var init := g[..|g| - 1];
      var m := g[|g| - 1];
      LatestRenewalIsMax(init, t);
      forall i | 0 <= i < |init| ensures init[i] == g[i] {
      }
      var r := LatestRenewal(init, t);
      var v := LatestRenewal(g, t);
      if v.Some? {
        forall i | 0 <= i < |g| && HasTier(g[i], t) && Truthy(g[i].lastRenewal)
          ensures !LexLess(v.value, g[i].lastRenewal.value)
        {
          if i < |init| {
            if v != r {
              // `m`'s renewal replaced `r`, later than it or than nothing
              if Truthy(r) {
                if LexLess(v.value, g[i].lastRenewal.value) {
                  LexLessTransitive(r.value, v.value, g[i].lastRenewal.value);
                }
              }
            }
          } else {
            if v == r && Truthy(r) && r.value != m.lastRenewal.value {
              LexLessTotal(r.value, m.lastRenewal.value);
            }
            if v != r || r.value == m.lastRenewal.value {
              LexLessIrreflexive(v.value);
            }
          }
        }
      }
    }
  }

  // ---------------------------------------------------------------------
  // The report

  /** The entry reported for `key`. */
  function Report(ms: seq<MembershipRecord>, people: seq<PersonContact>, key: string): DuplicateMembership {
    DuplicateMembership(key, OrUndefined(NameFor(people, key)), |Group(ms, key)|, ExpectedTiers(Group(ms, key)))
  }

  /** The entries for the keys `keys`, in order, of those with more than one membership. */
  function ReportsOver(keys: seq<string>, ms: seq<MembershipRecord>, people: seq<PersonContact>): seq<DuplicateMembership>
    decreases |keys|
  {
    if |keys| == 0 then []
    else
      var k := keys[|keys| - 1];
      ReportsOver(keys[..|keys| - 1], ms, people) + (if |Group(ms, k)| > 1 then [Report(ms, people, k)] else [])
  }

  lemma ReportsOverStep(keys: seq<string>, i: nat, ms: seq<MembershipRecord>, people: seq<PersonContact>)
    requires i < |keys|
    ensures ReportsOver(keys[..i + 1], ms, people)
         == ReportsOver(keys[..i], ms, people) + (if |Group(ms, keys[i])| > 1 then [Report(ms, people, keys[i])] else [])
  {
    assert keys[..i + 1][..i] == keys[..i];
  }

  /** The report: one entry per email with more than one membership, in order of first appearance. */
  function ExpectedDuplicates(ms: seq<MembershipRecord>, people: seq<PersonContact>): seq<DuplicateMembership> {
    ReportsOver(Dedup(EmailKeys(ms)), ms, people)
  }

  /**
   * `fetchDuplicateMemberships`: nothing is reported when the memberships
   * query fails (the state is left alone); otherwise the report over its
   * rows (none for null data), with names from the people rows (none when
   * that query returned no data).
   */
  method FetchDuplicateMemberships(answer: MembershipsAnswer, allPeople: Option<seq<PersonContact>>)
    returns (duplicates: Option<seq<DuplicateMembership>>)
    ensures answer.MembershipsFailed? ==> duplicates == None
    ensures answer.MembershipsRows? ==>
      duplicates == Some(ExpectedDuplicates(answer.data.GetOr([]), allPeople.GetOr([])))
  {
    if answer.MembershipsFailed? {
      return None;
    }
    var people := allPeople.GetOr([]);
    var ms := answer.data.GetOr([]);
    var emailToPersonMap := EmailToPersonMap(people);
    var emailGroups, order := GroupByEmail(ms);
    var found: seq<DuplicateMembership> := [];
    for i := 0 to |order|
      invariant found == ReportsOver(order[..i], ms, people)
    {
      ReportsOverStep(order, i, ms, people);
      var email := order[i];
      assert email in order;
      var memberships := emailGroups[email];
      assert memberships == Group(ms, email);
      if |memberships| > 1 {
        var tiers := TierSummary(memberships);
        var personName := if email in emailToPersonMap then Some(emailToPersonMap[email]) else None;
        assert personName == NameFor(people, email);
        found := found + [DuplicateMembership(email, OrUndefined(personName), |memberships|, tiers)];
      }
    }
    assert order[..|order|] == order;
    return Some(found);
  }

  // ---------------------------------------------------------------------
  // Properties of the report

  /** Every entry is the report of one of `keys` with more than one membership. */
  lemma {:induction false} ReportsOverSound(keys: seq<string>, ms: seq<MembershipRecord>, people: seq<PersonContact>)
    ensures forall i :: 0 <= i < |ReportsOver(keys, ms, people)| ==>
      var r := ReportsOver(keys, ms, people)[i];
      r.email in keys && |Group(ms, r.email)| > 1 && r == Report(ms, people, r.email)
    decreases |keys|
  {
    if |keys| > 0 {
      var init := keys[..|keys| - 1];
      var k := keys[|keys| - 1];
      var prev := ReportsOver(init, ms, people);
      var rs := ReportsOver(keys, ms, people);
      ReportsOverSound(init, ms, people);
      assert rs == prev + (if |Group(ms, k)| > 1 then [Report(ms, people, k)] else []);
      forall i | 0 <= i < |rs|
        ensures rs[i].email in keys && |Group(ms, rs[i].email)| > 1 && rs[i] == Report(ms, people, rs[i].email)
      {
        if i < |prev| {
          assert rs[i] == prev[i];
          assert prev[i].email in init;
        } else {
          assert rs[i] == Report(ms, people, k);
        }
      }
    }
  }

  /** Every one of `keys` with more than one membership has an entry. */
  lemma {:induction false} ReportsOverComplete(keys: seq<string>, ms: seq<MembershipRecord>, people: seq<PersonContact>, k: string)
    requires k in keys && |Group(ms, k)| > 1
    ensures exists i :: 0 <= i < |ReportsOver(keys, ms, people)| && ReportsOver(keys, ms, people)[i].email == k
    decreases |keys|
  {
    var init := keys[..|keys| - 1];
    var prev := ReportsOver(init, ms, people);
    var rs := ReportsOver(keys, ms, people);
    assert rs == prev + (if |Group(ms, keys[|keys| - 1])| > 1 then [Report(ms, people, keys[|keys| - 1])] else []);
    if k == keys[|keys| - 1] {
      assert rs[|prev|].email == k;
    } else {
      assert keys == init + [keys[|keys| - 1]];
      assert k in init;
      ReportsOverComplete(init, ms, people, k);
      var i :| 0 <= i < |prev| && prev[i].email == k;
      assert rs[i] == prev[i];
    }
  }

  /** Every entry's email is one of `keys`. */
  lemma {:induction false} ReportsEmailsIn(keys: seq<string>, ms: seq<MembershipRecord>, people: seq<PersonContact>)
    ensures forall i :: 0 <= i < |ReportsOver(keys, ms, people)| ==> ReportsOver(keys, ms, people)[i].email in keys
    decreases |keys|
  {
    if |keys| > 0 {
      var init := keys[..|keys| - 1];
      var k := keys[|keys| - 1];
      var prev := ReportsOver(init, ms, people);
      ReportsEmailsIn(init, ms, people);
      assert ReportsOver(keys, ms, people) == prev + (if |Group(ms, k)| > 1 then [Report(ms, people, k)] else []);
      assert forall x :: x in init ==> x in keys;
    }
  }

  /** Distinct keys give entries with distinct emails. */
  lemma {:induction false} ReportsOverDistinct(keys: seq<string>, ms: seq<MembershipRecord>, people: seq<PersonContact>)
    requires Distinct(keys)
    ensures forall i, j :: 0 <= i < j < |ReportsOver(keys, ms, people)| ==>
      ReportsOver(keys, ms, people)[i].email != ReportsOver(keys, ms, people)[j].email
    decreases |keys|
  {
    if |keys| > 0 {
      var init := keys[..|keys| - 1];
      var k := keys[|keys| - 1];
      var prev := ReportsOver(init, ms, people);
      var rs := ReportsOver(keys, ms, people);
      assert forall i :: 0 <= i < |init| ==> init[i] == keys[i];
      ReportsOverDistinct(init, ms, people);
      ReportsEmailsIn(init, ms, people);
      assert k !in init;
      assert rs == prev + (if |Group(ms, k)| > 1 then [Report(ms, people, k)] else []);
      forall i, j | 0 <= i < j < |rs| ensures rs[i].email != rs[j].email {
        if j < |prev| {
          assert rs[i] == prev[i] && rs[j] == prev[j];
        } else {
          assert rs[i] == prev[i] && prev[i].email in init;
          assert rs[j].email == k;
        }
      }
    }
  }

  /**
   * The report has exactly one entry per normalised email with more than
   * one membership, and that entry counts the group and lists its tiers.
   */
  lemma DuplicatesExactly(ms: seq<MembershipRecord>, people: seq<PersonContact>)
    ensures var ds := ExpectedDuplicates(ms, people);
      && (forall i :: 0 <= i < |ds| ==>
            |Group(ms, ds[i].email)| > 1 && ds[i].membershipCount == |Group(ms, ds[i].email)|
            && ds[i].personName == OrUndefined(NameFor(people, ds[i].email))
            && ds[i].tiers == ExpectedTiers(Group(ms, ds[i].email)))
      && (forall k :: |Group(ms, k)| > 1 ==> exists i :: 0 <= i < |ds| && ds[i].email == k)
      && (forall i, j :: 0 <= i < j < |ds| ==> ds[i].email != ds[j].email)
  {
    var keys := Dedup(EmailKeys(ms));
    var ds := ExpectedDuplicates(ms, people);
    ReportsOverSound(keys, ms, people);
    ReportsOverDistinct(keys, ms, people);
    forall k | |Group(ms, k)| > 1 ensures exists i :: 0 <= i < |ds| && ds[i].email == k {
      GroupedKeyIsEmail(ms, k);
      ReportsOverComplete(keys, ms, people, k);
    }
  }

  /** Within an entry the tiers are distinct and each is a truthy tier of the group. */
  lemma TiersDistinct(g: seq<MembershipRecord>)
    ensures var ts := ExpectedTiers(g);
      (forall i, j :: 0 <= i < j < |ts| ==> ts[i].tier != ts[j].tier)
      && (forall i :: 0 <= i < |ts| ==> exists k :: 0 <= k < |g| && HasTier(g[k], ts[i].tier))
  {
    var ts := ExpectedTiers(g);
    forall i | 0 <= i < |ts| ensures exists k :: 0 <= k < |g| && HasTier(g[k], ts[i].tier) {
      TierKeyHasMember(g, ts[i].tier);
    }
  }

  lemma {:induction false} TierKeyHasMember(g: seq<MembershipRecord>, t: string)
    requires t in TierKeys(g)
    ensures exists k :: 0 <= k < |g| && HasTier(g[k], t)
    decreases |g|
  {
    var init := g[..|g| - 1];
    if t in TierKeys(init) {
      TierKeyHasMember(init, t);
      var k :| 0 <= k < |init| && HasTier(init[k], t);
      assert g[k] == init[k];
    } else {
      assert HasTier(g[|g| - 1], t);
    }
  }
}
