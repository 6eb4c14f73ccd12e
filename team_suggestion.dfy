/**
 * The team generator of the setup phase: it pairs the checked-in players that
 * no setup team holds yet, same-sex or mixed, always giving the head of the
 * pool the candidate it partnered least often in past events, and orders the
 * new teams by check-in time.
 */
module TeamSuggestion {
  import opened Common
  import opened PairHistory

  /** A player profile as the generator reads it. */
  datatype Profile = Profile(id: string, sex: string)

  /** A row of the setup list: two profile ids, `""` for a slot not chosen yet. */
  datatype SetupTeam = SetupTeam(p1: string, p2: string)

  /** The generation type picked in the dialog. */
  datatype Kind = MM | FF | MF

  function Ids(ps: seq<Profile>): (ids: seq<string>)
    ensures |ids| == |ps|
    decreases |ps|
  {
    if ps == [] then [] else [ps[0].id] + Ids(ps[1..])
  }

  lemma {:induction false} IdsIndex(ps: seq<Profile>, i: int)
    requires 0 <= i < |ps|
    ensures Ids(ps)[i] == ps[i].id
    decreases |ps|
  {
    if i > 0 { IdsIndex(ps[1..], i - 1); }
  }

  /** No two profiles share an id. */
  predicate IdsDistinct(ps: seq<Profile>) {
    forall i, j :: 0 <= i < j < |ps| ==> ps[i].id != ps[j].id
  }

  /** The players of the teams, two per team, in order. */
  function TeamIds(teams: seq<SetupTeam>): (ids: seq<string>)
    ensures |ids| == 2 * |teams|
    decreases |teams|
  {
    if teams == [] then [] else [teams[0].p1, teams[0].p2] + TeamIds(teams[1..])
  }

  lemma TeamIdsCons(t: SetupTeam, rest: seq<SetupTeam>)
    ensures TeamIds([t] + rest) == [t.p1, t.p2] + TeamIds(rest)
  {
    assert ([t] + rest)[1..] == rest;
  }

  // ---------------------------------------------------------------------------
  // Who is available
  // ---------------------------------------------------------------------------

  /** The non-empty ids that the setup list already holds. */
  function AssignedIds(teams: seq<SetupTeam>): (ids: set<string>)
    ensures forall x :: x in ids <==> x != "" && exists t :: t in teams && (t.p1 == x || t.p2 == x)
    decreases |teams|
  {
    if teams == [] then {}
    else
      var init := teams[..|teams| - 1];
      var t := teams[|teams| - 1];
      assert forall u :: u in teams <==> u in init || u == t;
      AssignedIds(init) + (if t.p1 != "" then {t.p1} else {}) + (if t.p2 != "" then {t.p2} else {})
  }

  /** The `forEach` that fills `assignedPlayerIds`. */
  method CollectAssigned(teams: seq<SetupTeam>) returns (assignedIds: set<string>)
    ensures assignedIds == AssignedIds(teams)
  {
    assignedIds := {};
    var i := 0;
    while i < |teams|
      invariant 0 <= i <= |teams|
      invariant assignedIds == AssignedIds(teams[..i])
    {
      assert teams[..i + 1][..i] == teams[..i];
      if teams[i].p1 != "" {
        assignedIds := assignedIds + {teams[i].p1};
      }
      if teams[i].p2 != "" {
        assignedIds := assignedIds + {teams[i].p2};
      }
      i := i + 1;
    }
    assert teams[..|teams|] == teams;
  }

  /** The checked-in players that no setup team holds. */
  function Available(checkedIn: seq<Profile>, assignedIds: set<string>): seq<Profile>
  {
    Filter(checkedIn, (p: Profile) => p.id !in assignedIds)
  }

  function Males(ps: seq<Profile>): seq<Profile> {
    Filter(ps, (p: Profile) => p.sex == "M")
  }

  function Females(ps: seq<Profile>): seq<Profile> {
    Filter(ps, (p: Profile) => p.sex == "F")
  }

  /**
   * The pools the generator shuffles, by kind: the same-sex candidates and an
   * empty second pool, or the males and the females.
   */
  function Pools(available: seq<Profile>, kind: Kind): (seq<Profile>, seq<Profile>)
  {
    match kind
    case MM => (Males(available), [])
    case FF => (Females(available), [])
    case MF => (Males(available), Females(available))
  }

  /** The shuffled pools are some reordering of the pools. */
  predicate IsShuffle(available: seq<Profile>, kind: Kind, order1: seq<Profile>, order2: seq<Profile>)
  {
    multiset(order1) == multiset(Pools(available, kind).0)
    && multiset(order2) == multiset(Pools(available, kind).1)
  }

  // ---------------------------------------------------------------------------
  // Choosing a partner
  // ---------------------------------------------------------------------------

  /** How often two players were teammates before: `pairFrequency.get(key) || 0` for their pair key. */
  function PairCount(freq: map<string, int>): (string, string) -> int {
    (a: string, b: string) => Freq(freq, PairKey(a, b))
  }

  /** The past-pairing count of `head` with each candidate of the pool, by index. */
  function Costs(count: (string, string) -> int, head: string, pool: seq<Profile>): (costs: seq<int>)
    ensures |costs| == |pool|
    decreases |pool|
  {
    if pool == [] then [] else [count(head, pool[0].id)] + Costs(count, head, pool[1..])
  }

  lemma {:induction false} CostsAt(count: (string, string) -> int, head: string, pool: seq<Profile>, j: int)
    requires 0 <= j < |pool|
    ensures Costs(count, head, pool)[j] == count(head, pool[j].id)
    decreases |pool|
  {
    if j > 0 { CostsAt(count, head, pool[1..], j - 1); }
  }

  /** Among `costs[lo..hi]`, index `i` holds the smallest count and no earlier index holds it too. */
  predicate IsFirstMin(costs: seq<int>, lo: int, hi: int, i: int)
    requires 0 <= lo && hi <= |costs|
  {
    lo <= i < hi
    && (forall j :: lo <= j < hi ==> costs[i] <= costs[j])
    && (forall j :: lo <= j < i ==> costs[i] < costs[j])
  }

  /** The index of the first smallest count from `lo` on. */
  function FirstMin(costs: seq<int>, lo: nat): (i: int)
    requires lo < |costs|
    ensures IsFirstMin(costs, lo, |costs|, i)
    decreases |costs| - lo
  {
    if lo == |costs| - 1 then lo
    else
      var r := FirstMin(costs, lo + 1);
      if costs[lo] <= costs[r] then lo else r
  }

  /** At most one index is the first minimum. */
  lemma FirstMinUnique(costs: seq<int>, lo: int, hi: int, i: int, k: int)
    requires 0 <= lo && hi <= |costs|
    requires IsFirstMin(costs, lo, hi, i) && IsFirstMin(costs, lo, hi, k)
    ensures i == k
  {
    assert costs[i] == costs[k];
  }

  /** One step of the scan: index `i` replaces the best so far exactly when its count is smaller. */
  lemma ScanStep(costs: seq<int>, lo: int, i: int, best: int)
    requires 0 <= lo <= i < |costs|
    requires i > lo ==> IsFirstMin(costs, lo, i, best)
    ensures i == lo ==> IsFirstMin(costs, lo, i + 1, i)
    ensures i > lo && costs[i] < costs[best] ==> IsFirstMin(costs, lo, i + 1, i)
    ensures i > lo && costs[i] >= costs[best] ==> IsFirstMin(costs, lo, i + 1, best)
  {
  }

  /**
   * The inner `for` loop: scan the candidates from `lo`, keeping the index of
   * the first one whose pair count is below the smallest seen so far. The
   * smallest count starts at `Infinity`, modelled as `None`.
   */
  method BestPartner(freq: map<string, int>, head: string, pool: seq<Profile>, lo: nat) returns (best: int)
    requires lo <= |pool|
    ensures lo == |pool| ==> best == -1
    ensures lo < |pool| ==> IsFirstMin(Costs(PairCount(freq), head, pool), lo, |pool|, best)
    ensures lo < |pool| ==> best == FirstMin(Costs(PairCount(freq), head, pool), lo)
  {
    ghost var costs := Costs(PairCount(freq), head, pool);
    best := -1;
    var minFreq: Option<int> := None;
    var i := lo;
    while i < |pool|
      invariant lo <= i <= |pool|
      invariant best == -1 <==> i == lo
      invariant minFreq.None? <==> i == lo
      invariant i > lo ==> IsFirstMin(costs, lo, i, best)
      invariant i > lo ==> minFreq == Some(costs[best])
    {
      var p2 := pool[i];
      var f := Freq(freq, PairKey(head, p2.id));
      CostsAt(PairCount(freq), head, pool, i);
      ScanStep(costs, lo, i, best);
      if minFreq.None? || f < minFreq.value {
        minFreq := Some(f);
        best := i;
      }
      i := i + 1;
    }
    if lo < |pool| {
      FirstMinUnique(costs, lo, |pool|, best, FirstMin(costs, lo));
    }
  }

  // ---------------------------------------------------------------------------
  // Pairing the pools
  // ---------------------------------------------------------------------------

  /** Two profiles put in one team, head first. */
  datatype Duo = Duo(first: Profile, second: Profile)

  /** The teams formed and what is left over of the first and second pool. */
  datatype Pairing = Pairing(duos: seq<Duo>, rest1: seq<Profile>, rest2: seq<Profile>)

  function AsTeams(duos: seq<Duo>): (teams: seq<SetupTeam>)
    ensures |teams| == |duos|
    decreases |duos|
  {
    if duos == [] then [] else [SetupTeam(duos[0].first.id, duos[0].second.id)] + AsTeams(duos[1..])
  }

  function Members(duos: seq<Duo>): seq<Profile>
    decreases |duos|
  {
    if duos == [] then [] else [duos[0].first, duos[0].second] + Members(duos[1..])
  }

  function Firsts(duos: seq<Duo>): seq<Profile>
    decreases |duos|
  {
    if duos == [] then [] else [duos[0].first] + Firsts(duos[1..])
  }

  function Seconds(duos: seq<Duo>): seq<Profile>
    decreases |duos|
  {
    if duos == [] then [] else [duos[0].second] + Seconds(duos[1..])
  }

  lemma DuosCons(d: Duo, rest: seq<Duo>)
    ensures Members([d] + rest) == [d.first, d.second] + Members(rest)
    ensures Firsts([d] + rest) == [d.first] + Firsts(rest)
    ensures Seconds([d] + rest) == [d.second] + Seconds(rest)
    ensures AsTeams([d] + rest) == [SetupTeam(d.first.id, d.second.id)] + AsTeams(rest)
  {
    assert ([d] + rest)[1..] == rest;
  }

  /** `splice(i, 1)`. */
  function RemoveAt<T>(s: seq<T>, i: nat): (r: seq<T>)
    requires i < |s|
    ensures |r| == |s| - 1
  {
    s[..i] + s[i + 1..]
  }

  lemma RemoveAtMultiset<T>(s: seq<T>, i: nat)
    requires i < |s|
    ensures multiset(s) == multiset(RemoveAt(s, i)) + multiset{s[i]}
  {
    assert s == s[..i] + [s[i]] + s[i + 1..];
  }

  /**
   * Same-sex generation: while two candidates remain, the head takes the
   * first least-paired candidate among the others, and both leave the pool.
   */
  function SameSexPairing(count: (string, string) -> int, candidates: seq<Profile>): Pairing
    decreases |candidates|
  {
    if |candidates| < 2 then Pairing([], candidates, [])
    else
      var b := FirstMin(Costs(count, candidates[0].id, candidates), 1);
      var tail := SameSexPairing(count, RemoveAt(candidates[1..], b - 1));
      Pairing([Duo(candidates[0], candidates[b])] + tail.duos, tail.rest1, tail.rest2)
  }

  /**
   * Mixed generation: while both pools are non-empty, the head of the first
   * pool takes the first least-paired player of the second pool.
   */
  function MixedPairing(count: (string, string) -> int, pool1: seq<Profile>, pool2: seq<Profile>): Pairing
    decreases |pool1|
  {
    if |pool1| == 0 || |pool2| == 0 then Pairing([], pool1, pool2)
    else
      var b := FirstMin(Costs(count, pool1[0].id, pool2), 0);
      var tail := MixedPairing(count, pool1[1..], RemoveAt(pool2, b));
      Pairing([Duo(pool1[0], pool2[b])] + tail.duos, tail.rest1, tail.rest2)
  }

  /** The same-sex `while` loop of `handleGenerateTeams`. */
  method PairSameSex(freq: map<string, int>, shuffled: seq<Profile>) returns (newTeams: seq<SetupTeam>, candidates: seq<Profile>)
    ensures newTeams == AsTeams(SameSexPairing(PairCount(freq), shuffled).duos)
    ensures candidates == SameSexPairing(PairCount(freq), shuffled).rest1
  {
    ghost var target := SameSexPairing(PairCount(freq), shuffled);
    newTeams := [];
    candidates := shuffled;
    while |candidates| >= 2
      invariant newTeams + AsTeams(SameSexPairing(PairCount(freq), candidates).duos) == AsTeams(target.duos)
      invariant SameSexPairing(PairCount(freq), candidates).rest1 == target.rest1
      decreases |candidates|
    {
      var p1 := candidates[0];
      var bestP2Index := BestPartner(freq, p1.id, candidates, 1);
      if bestP2Index != -1 {
        var p2 := candidates[bestP2Index];
        SameSexAdvance(PairCount(freq), candidates, bestP2Index, newTeams);
        newTeams := newTeams + [SetupTeam(p1.id, p2.id)];
        candidates := candidates[1..];
        candidates := RemoveAt(candidates, bestP2Index - 1);
      } else {
        break;
      }
    }
  }

  /** One round of the same-sex loop keeps the teams built so far plus those still to come the same. */
  lemma SameSexAdvance(count: (string, string) -> int, candidates: seq<Profile>, b: int, done: seq<SetupTeam>)
    requires |candidates| >= 2
    requires b == FirstMin(Costs(count, candidates[0].id, candidates), 1)
    ensures (done + [SetupTeam(candidates[0].id, candidates[b].id)]) + AsTeams(SameSexPairing(count, RemoveAt(candidates[1..], b - 1)).duos)
            == done + AsTeams(SameSexPairing(count, candidates).duos)
  {
    var tail := SameSexPairing(count, RemoveAt(candidates[1..], b - 1));
    DuosCons(Duo(candidates[0], candidates[b]), tail.duos);
  }

  /** The mixed `while` loop of `handleGenerateTeams`. */
  method PairMixed(freq: map<string, int>, shuffled1: seq<Profile>, shuffled2: seq<Profile>)
    returns (newTeams: seq<SetupTeam>, pool1: seq<Profile>, pool2: seq<Profile>)
    ensures newTeams == AsTeams(MixedPairing(PairCount(freq), shuffled1, shuffled2).duos)
    ensures pool1 == MixedPairing(PairCount(freq), shuffled1, shuffled2).rest1
    ensures pool2 == MixedPairing(PairCount(freq), shuffled1, shuffled2).rest2
  {
    ghost var target := MixedPairing(PairCount(freq), shuffled1, shuffled2);
    newTeams := [];
    pool1, pool2 := shuffled1, shuffled2;
    while |pool1| > 0 && |pool2| > 0
      invariant newTeams + AsTeams(MixedPairing(PairCount(freq), pool1, pool2).duos) == AsTeams(target.duos)
      invariant MixedPairing(PairCount(freq), pool1, pool2).rest1 == target.rest1
      invariant MixedPairing(PairCount(freq), pool1, pool2).rest2 == target.rest2
      decreases |pool1|
    {
      var p1 := pool1[0];
      var bestP2Index := BestPartner(freq, p1.id, pool2, 0);
      if bestP2Index != -1 {
        var p2 := pool2[bestP2Index];
        MixedAdvance(PairCount(freq), pool1, pool2, bestP2Index, newTeams);
        newTeams := newTeams + [SetupTeam(p1.id, p2.id)];
        pool1 := pool1[1..];
        pool2 := RemoveAt(pool2, bestP2Index);
      } else {
        break;
      }
    }
  }

  /** One round of the mixed loop keeps the teams built so far plus those still to come the same. */
  lemma MixedAdvance(count: (string, string) -> int, pool1: seq<Profile>, pool2: seq<Profile>, b: int, done: seq<SetupTeam>)
    requires |pool1| > 0 && |pool2| > 0
    requires b == FirstMin(Costs(count, pool1[0].id, pool2), 0)
    ensures (done + [SetupTeam(pool1[0].id, pool2[b].id)]) + AsTeams(MixedPairing(count, pool1[1..], RemoveAt(pool2, b)).duos)
            == done + AsTeams(MixedPairing(count, pool1, pool2).duos)
  {
    var tail := MixedPairing(count, pool1[1..], RemoveAt(pool2, b));
    DuosCons(Duo(pool1[0], pool2[b]), tail.duos);
  }

  // ---------------------------------------------------------------------------
  // What the pairings are
  // ---------------------------------------------------------------------------

  /** From n candidates, n / 2 teams and n % 2 left over. */
  lemma {:induction false} SameSexCount(count: (string, string) -> int, candidates: seq<Profile>)
    ensures |SameSexPairing(count, candidates).duos| == |candidates| / 2
    ensures |SameSexPairing(count, candidates).rest1| == |candidates| % 2
    ensures SameSexPairing(count, candidates).rest2 == []
    decreases |candidates|
  {
    if |candidates| >= 2 {
      var b := FirstMin(Costs(count, candidates[0].id, candidates), 1);
      SameSexCount(count, RemoveAt(candidates[1..], b - 1));
    }
  }

  /** Every candidate ends up either in exactly one team or left over. */
  lemma {:induction false} SameSexPartition(count: (string, string) -> int, candidates: seq<Profile>)
    ensures multiset(Members(SameSexPairing(count, candidates).duos)) + multiset(SameSexPairing(count, candidates).rest1)
            == multiset(candidates)
    decreases |candidates|
  {
    if |candidates| >= 2 {
      var b := FirstMin(Costs(count, candidates[0].id, candidates), 1);
      var tail := SameSexPairing(count, RemoveAt(candidates[1..], b - 1));
      SameSexPartition(count, RemoveAt(candidates[1..], b - 1));
      SameSexRound(candidates, b, tail.duos, tail.rest1);
    }
  }

  /** The head and the candidate at `b` form a team; the others go on to the rest of the pairing. */
  lemma SameSexRound(candidates: seq<Profile>, b: int, duos: seq<Duo>, left: seq<Profile>)
    requires 1 <= b < |candidates|
    requires multiset(Members(duos)) + multiset(left) == multiset(RemoveAt(candidates[1..], b - 1))
    ensures multiset(Members([Duo(candidates[0], candidates[b])] + duos)) + multiset(left) == multiset(candidates)
  {
    var others := candidates[1..];
    DuosCons(Duo(candidates[0], others[b - 1]), duos);
    RemoveAtMultiset(others, b - 1);
    FirstAndOthers(candidates);
    PartitionStep(candidates[0], others[b - 1], multiset(others), multiset(RemoveAt(others, b - 1)),
                  multiset(Members(duos)), multiset(left));
  }

  lemma FirstAndOthers(s: seq<Profile>)
    requires s != []
    ensures multiset(s) == multiset{s[0]} + multiset(s[1..])
  {
    assert s == [s[0]] + s[1..];
  }

  lemma PartitionStep(x: Profile, y: Profile, others: multiset<Profile>, rest: multiset<Profile>,
                      members: multiset<Profile>, left: multiset<Profile>)
    requires others == rest + multiset{y}
    requires members + left == rest
    ensures multiset{x, y} + members + left == multiset{x} + others
  {
  }

  /** Mixed generation forms min(#first, #second) teams and leaves over players of one pool at most. */
  lemma {:induction false} MixedCount(count: (string, string) -> int, pool1: seq<Profile>, pool2: seq<Profile>)
    ensures |MixedPairing(count, pool1, pool2).duos| == if |pool1| < |pool2| then |pool1| else |pool2|
    ensures MixedPairing(count, pool1, pool2).rest1 == [] || MixedPairing(count, pool1, pool2).rest2 == []
    decreases |pool1|
  {
    if |pool1| > 0 && |pool2| > 0 {
      var b := FirstMin(Costs(count, pool1[0].id, pool2), 0);
      MixedCount(count, pool1[1..], RemoveAt(pool2, b));
    }
  }

  /** Every player of the first pool heads one team or is left over, and likewise for the second pool. */
  lemma {:induction false} MixedPartition(count: (string, string) -> int, pool1: seq<Profile>, pool2: seq<Profile>)
    ensures multiset(Firsts(MixedPairing(count, pool1, pool2).duos)) + multiset(MixedPairing(count, pool1, pool2).rest1) == multiset(pool1)
    ensures multiset(Seconds(MixedPairing(count, pool1, pool2).duos)) + multiset(MixedPairing(count, pool1, pool2).rest2) == multiset(pool2)
    decreases |pool1|
  {
    if |pool1| > 0 && |pool2| > 0 {
      var b := FirstMin(Costs(count, pool1[0].id, pool2), 0);
      var rest2 := RemoveAt(pool2, b);
      MixedPartition(count, pool1[1..], rest2);
      var tail := MixedPairing(count, pool1[1..], rest2);
      DuosCons(Duo(pool1[0], pool2[b]), tail.duos);
      RemoveAtMultiset(pool2, b);
      FirstAndOthers(pool1);
    }
  }

  lemma {:induction false} MembersSplit(duos: seq<Duo>)
    ensures multiset(Members(duos)) == multiset(Firsts(duos)) + multiset(Seconds(duos))
    decreases |duos|
  {
    if duos != [] {
      MembersSplit(duos[1..]);
    }
  }

  lemma {:induction false} TeamIdsOfDuos(duos: seq<Duo>)
    ensures TeamIds(AsTeams(duos)) == Ids(Members(duos))
    decreases |duos|
  {
    if duos != [] {
      TeamIdsOfDuos(duos[1..]);
      assert AsTeams(duos)[1..] == AsTeams(duos[1..]);
      assert Members(duos)[2..] == Members(duos[1..]);
    }
  }

  lemma {:induction false} InAsTeams(duos: seq<Duo>, t: SetupTeam)
    requires t in AsTeams(duos)
    ensures exists d :: d in duos && d.first in Firsts(duos) && d.second in Seconds(duos)
                        && t == SetupTeam(d.first.id, d.second.id)
    decreases |duos|
  {
    if t != SetupTeam(duos[0].first.id, duos[0].second.id) {
      InAsTeams(duos[1..], t);
      var d :| d in duos[1..] && d.first in Firsts(duos[1..]) && d.second in Seconds(duos[1..])
               && t == SetupTeam(d.first.id, d.second.id);
      assert d in duos;
    }
  }

  // ---------------------------------------------------------------------------
  // Ordering by check-in time
  // ---------------------------------------------------------------------------

  /** `getCheckInTime`: the player's check-in time, or `now` when there is none. */
  function CheckInTime(times: map<string, int>, now: int, pid: string): int {
    if pid in times then times[pid] else now
  }

  /** A team is as late as its later player. */
  function TeamTime(times: map<string, int>, now: int, t: SetupTeam): int {
    var a := CheckInTime(times, now, t.p1);
    var b := CheckInTime(times, now, t.p2);
    if a >= b then a else b
  }

  predicate SortedByTime(times: map<string, int>, now: int, teams: seq<SetupTeam>) {
    forall i, j :: 0 <= i < j < |teams| ==> TeamTime(times, now, teams[i]) <= TeamTime(times, now, teams[j])
  }

  /** Insert `t` before the first team that is not earlier than it. */
  function InsertByTime(times: map<string, int>, now: int, t: SetupTeam, sorted: seq<SetupTeam>): seq<SetupTeam>
    decreases |sorted|
  {
    if sorted == [] || TeamTime(times, now, t) <= TeamTime(times, now, sorted[0]) then [t] + sorted
    else [sorted[0]] + InsertByTime(times, now, t, sorted[1..])
  }

  /** The stable sort of the new teams by team time, earliest first. */
  function SortByCheckIn(times: map<string, int>, now: int, teams: seq<SetupTeam>): seq<SetupTeam>
    decreases |teams|
  {
    if teams == [] then [] else InsertByTime(times, now, teams[0], SortByCheckIn(times, now, teams[1..]))
  }

  /** No team of `teams` is earlier than `k`. */
  predicate NotBefore(times: map<string, int>, now: int, k: int, teams: seq<SetupTeam>) {
    forall i :: 0 <= i < |teams| ==> k <= TeamTime(times, now, teams[i])
  }

  lemma {:induction false} InsertNotBefore(times: map<string, int>, now: int, k: int, t: SetupTeam, sorted: seq<SetupTeam>)
    requires NotBefore(times, now, k, sorted) && k <= TeamTime(times, now, t)
    ensures NotBefore(times, now, k, InsertByTime(times, now, t, sorted))
    decreases |sorted|
  {
    if sorted != [] && TeamTime(times, now, t) > TeamTime(times, now, sorted[0]) {
      InsertNotBefore(times, now, k, t, sorted[1..]);
      var ins := InsertByTime(times, now, t, sorted[1..]);
      assert forall i :: 0 < i < |ins| + 1 ==> ([sorted[0]] + ins)[i] == ins[i - 1];
    }
  }

  lemma {:induction false} InsertSorted(times: map<string, int>, now: int, t: SetupTeam, sorted: seq<SetupTeam>)
    requires SortedByTime(times, now, sorted)
    ensures SortedByTime(times, now, InsertByTime(times, now, t, sorted))
    decreases |sorted|
  {
    var r := InsertByTime(times, now, t, sorted);
    if sorted == [] || TeamTime(times, now, t) <= TeamTime(times, now, sorted[0]) {
      forall i, j | 0 <= i < j < |r| ensures TeamTime(times, now, r[i]) <= TeamTime(times, now, r[j]) {
        if i > 0 {
          assert r[i] == sorted[i - 1] && r[j] == sorted[j - 1];
        } else {
          assert r[j] == sorted[j - 1];
        }
      }
    } else {
      var tail := sorted[1..];
      InsertSorted(times, now, t, tail);
      InsertNotBefore(times, now, TeamTime(times, now, sorted[0]), t, tail);
      var ins := InsertByTime(times, now, t, tail);
      forall i, j | 0 <= i < j < |r| ensures TeamTime(times, now, r[i]) <= TeamTime(times, now, r[j]) {
        assert r[j] == ins[j - 1];
        if i > 0 {
          assert r[i] == ins[i - 1];
        }
      }
    }
  }

  lemma {:induction false} InsertKeepsTeams(times: map<string, int>, now: int, t: SetupTeam, sorted: seq<SetupTeam>)
    ensures multiset(InsertByTime(times, now, t, sorted)) == multiset(sorted) + multiset{t}
    decreases |sorted|
  {
    if sorted != [] && TeamTime(times, now, t) > TeamTime(times, now, sorted[0]) {
      InsertKeepsTeams(times, now, t, sorted[1..]);
      assert sorted == [sorted[0]] + sorted[1..];
    }
  }

  lemma {:induction false} InsertKeepsPlayers(times: map<string, int>, now: int, t: SetupTeam, sorted: seq<SetupTeam>)
    ensures multiset(TeamIds(InsertByTime(times, now, t, sorted))) == multiset(TeamIds(sorted)) + multiset{t.p1, t.p2}
    decreases |sorted|
  {
    if sorted == [] || TeamTime(times, now, t) <= TeamTime(times, now, sorted[0]) {
      TeamIdsCons(t, sorted);
    } else {
      var ins := InsertByTime(times, now, t, sorted[1..]);
      InsertKeepsPlayers(times, now, t, sorted[1..]);
      TeamIdsCons(sorted[0], ins);
      assert TeamIds(sorted) == [sorted[0].p1, sorted[0].p2] + TeamIds(sorted[1..]);
      PairStep(sorted[0].p1, sorted[0].p2, t.p1, t.p2, multiset(TeamIds(ins)), multiset(TeamIds(sorted[1..])));
    }
  }

  lemma PairStep(a: string, b: string, x: string, y: string, inserted: multiset<string>, tail: multiset<string>)
    requires inserted == tail + multiset{x, y}
    ensures multiset{a, b} + inserted == multiset{a, b} + tail + multiset{x, y}
  {
  }

  /** The sort orders the teams by time. */
  lemma {:induction false} SortByCheckInSorted(times: map<string, int>, now: int, teams: seq<SetupTeam>)
    ensures SortedByTime(times, now, SortByCheckIn(times, now, teams))
    decreases |teams|
  {
    if teams != [] {
      SortByCheckInSorted(times, now, teams[1..]);
      InsertSorted(times, now, teams[0], SortByCheckIn(times, now, teams[1..]));
    }
  }

  /** The sort keeps exactly the same teams. */
  lemma {:induction false} SortByCheckInPermutes(times: map<string, int>, now: int, teams: seq<SetupTeam>)
    ensures multiset(SortByCheckIn(times, now, teams)) == multiset(teams)
    ensures |SortByCheckIn(times, now, teams)| == |teams|
    decreases |teams|
  {
    if teams != [] {
      SortByCheckInPermutes(times, now, teams[1..]);
      InsertKeepsTeams(times, now, teams[0], SortByCheckIn(times, now, teams[1..]));
      assert teams == [teams[0]] + teams[1..];
    }
  }

  /** The sort keeps the same players. */
  lemma {:induction false} SortByCheckInKeepsPlayers(times: map<string, int>, now: int, teams: seq<SetupTeam>)
    ensures multiset(TeamIds(SortByCheckIn(times, now, teams))) == multiset(TeamIds(teams))
    decreases |teams|
  {
    if teams != [] {
      SortByCheckInKeepsPlayers(times, now, teams[1..]);
      InsertKeepsPlayers(times, now, teams[0], SortByCheckIn(times, now, teams[1..]));
    }
  }

  // ---------------------------------------------------------------------------
  // The whole suggestion
  // ---------------------------------------------------------------------------

  /** The pairing for the kind chosen, over the shuffled pools. */
  function Generate(count: (string, string) -> int, kind: Kind, order1: seq<Profile>, order2: seq<Profile>): Pairing
  {
    if kind == MF then MixedPairing(count, order1, order2) else SameSexPairing(count, order1)
  }

  /**
   * The teams `handleGenerateTeams` appends: the available players of the
   * chosen kind, in the shuffled orders given, paired against the past-pair
   * frequencies and sorted by check-in time.
   */
  function Suggestion(selected: seq<SetupTeam>, checkedIn: seq<Profile>, kind: Kind, freq: map<string, int>,
                      order1: seq<Profile>, order2: seq<Profile>, times: map<string, int>, now: int): seq<SetupTeam>
    requires IsShuffle(Available(checkedIn, AssignedIds(selected)), kind, order1, order2)
  {
    SortByCheckIn(times, now, AsTeams(Generate(PairCount(freq), kind, order1, order2).duos))
  }

  lemma DistinctIdsFromMultiset(sub: seq<Profile>, s: seq<Profile>)
    requires IdsDistinct(s)
    requires multiset(sub) <= multiset(s)
    ensures IdsDistinct(sub)
  {
    assert NoDup(s);
    NoDupFromMultiset(sub, s);
    forall i, j | 0 <= i < j < |sub| ensures sub[i].id != sub[j].id {
      assert sub[i] in multiset(sub) && sub[j] in multiset(sub);
      var a :| 0 <= a < |s| && s[a] == sub[i];
      var b :| 0 <= b < |s| && s[b] == sub[j];
    }
  }

  /** Every player placed by the generator comes out of the available players, once. */
  lemma GeneratedFromAvailable(count: (string, string) -> int, kind: Kind, available: seq<Profile>, order1: seq<Profile>, order2: seq<Profile>)
    requires IsShuffle(available, kind, order1, order2)
    ensures multiset(Members(Generate(count, kind, order1, order2).duos)) <= multiset(available)
  {
    var g := Generate(count, kind, order1, order2);
    if kind == MF {
      MixedPartition(count, order1, order2);
      MembersSplit(g.duos);
      FilterDisjoint(available, (p: Profile) => p.sex == "M", (p: Profile) => p.sex == "F");
    } else {
      SameSexPartition(count, order1);
    }
  }

  /** The generated teams hold no player twice, and only available players. */
  lemma GeneratedPlayers(count: (string, string) -> int, kind: Kind, available: seq<Profile>, order1: seq<Profile>, order2: seq<Profile>)
    requires IsShuffle(available, kind, order1, order2)
    requires IdsDistinct(available)
    ensures NoDup(TeamIds(AsTeams(Generate(count, kind, order1, order2).duos)))
    ensures multiset(TeamIds(AsTeams(Generate(count, kind, order1, order2).duos))) <= multiset(Ids(available))
  {
    var members := Members(Generate(count, kind, order1, order2).duos);
    GeneratedFromAvailable(count, kind, available, order1, order2);
    DistinctIdsFromMultiset(members, available);
    TeamIdsOfDuos(Generate(count, kind, order1, order2).duos);
    IdsDistinctNoDup(members);
    IdsOfSubMultiset(members, available);
  }

  lemma IdsDistinctNoDup(ps: seq<Profile>)
    requires IdsDistinct(ps)
    ensures NoDup(Ids(ps))
  {
    forall i, j | 0 <= i < j < |ps| ensures Ids(ps)[i] != Ids(ps)[j] {
      IdsIndex(ps, i);
      IdsIndex(ps, j);
    }
  }

  /** Taking ids respects multiset inclusion. */
  lemma {:induction false} IdsOfSubMultiset(sub: seq<Profile>, s: seq<Profile>)
    requires multiset(sub) <= multiset(s)
    ensures multiset(Ids(sub)) <= multiset(Ids(s))
    decreases |sub|
  {
    if sub != [] {
      var x := sub[0];
      assert x in multiset(sub);
      var k :| 0 <= k < |s| && s[k] == x;
      var rest := RemoveAt(s, k);
      RemoveAtMultiset(s, k);
      assert sub == [x] + sub[1..];
      assert multiset(sub) == multiset(sub[1..]) + multiset{x};
      MultisetCancel(multiset(sub[1..]), multiset(rest), x);
      IdsOfSubMultiset(sub[1..], rest);
      IdsRemoveAt(s, k);
      IdsConcat([x], sub[1..]);
    }
  }

  lemma {:induction false} IdsConcat(a: seq<Profile>, b: seq<Profile>)
    ensures Ids(a + b) == Ids(a) + Ids(b)
    decreases |a|
  {
    if a == [] {
      assert a + b == b;
    } else {
      assert (a + b)[1..] == a[1..] + b;
      IdsConcat(a[1..], b);
      assert Ids(a + b) == [a[0].id] + Ids(a[1..] + b);
    }
  }

  lemma IdsRemoveAt(s: seq<Profile>, k: int)
    requires 0 <= k < |s|
    ensures multiset(Ids(s)) == multiset(Ids(RemoveAt(s, k))) + multiset{s[k].id}
  {
    var front, back := s[..k], s[k + 1..];
    assert s == front + ([s[k]] + back);
    assert RemoveAt(s, k) == front + back;
    IdsConcat(front, [s[k]] + back);
    IdsConcat([s[k]], back);
    IdsConcat(front, back);
    assert Ids([s[k]]) == [s[k].id];
    var a, b := Ids(front), Ids(back);
    assert multiset(Ids(s)) == multiset(a) + multiset{s[k].id} + multiset(b);
  }

  /** A profile of the available list is a checked-in player whom no setup team holds. */
  lemma AvailableIds(checkedIn: seq<Profile>, assignedIds: set<string>, x: string)
    requires x in Ids(Available(checkedIn, assignedIds))
    ensures x in Ids(checkedIn) && x !in assignedIds
  {
    var available := Available(checkedIn, assignedIds);
    var i :| 0 <= i < |available| && Ids(available)[i] == x;
    IdsIndex(available, i);
    var p := available[i];
    var k :| 0 <= k < |checkedIn| && checkedIn[k] == p;
    IdsIndex(checkedIn, k);
  }

  /**
   * The suggested teams use only checked-in players that no setup team holds,
   * and no player twice (so nobody is paired with themself either).
   */
  lemma SuggestionUsesFreePlayers(selected: seq<SetupTeam>, checkedIn: seq<Profile>, kind: Kind, freq: map<string, int>,
                                  order1: seq<Profile>, order2: seq<Profile>, times: map<string, int>, now: int)
    requires IsShuffle(Available(checkedIn, AssignedIds(selected)), kind, order1, order2)
    requires IdsDistinct(checkedIn)
    ensures NoDup(TeamIds(Suggestion(selected, checkedIn, kind, freq, order1, order2, times, now)))
    ensures forall x :: x in TeamIds(Suggestion(selected, checkedIn, kind, freq, order1, order2, times, now)) ==>
              x in Ids(checkedIn) && x !in AssignedIds(selected)
  {
    var available := Available(checkedIn, AssignedIds(selected));
    var unsorted := AsTeams(Generate(PairCount(freq), kind, order1, order2).duos);
    var r := Suggestion(selected, checkedIn, kind, freq, order1, order2, times, now);
    DistinctIdsFromMultiset(available, checkedIn);
    GeneratedPlayers(PairCount(freq), kind, available, order1, order2);
    SortByCheckInKeepsPlayers(times, now, unsorted);
    NoDupFromMultiset(TeamIds(r), TeamIds(unsorted));
    forall x | x in TeamIds(r) ensures x in Ids(checkedIn) && x !in AssignedIds(selected) {
      assert x in multiset(TeamIds(r));
      assert x in multiset(Ids(available));
      AvailableIds(checkedIn, AssignedIds(selected), x);
    }
  }

  /** The number of generated teams for a pool, by kind. */
  lemma GeneratedCount(count: (string, string) -> int, kind: Kind, available: seq<Profile>, order1: seq<Profile>, order2: seq<Profile>)
    requires IsShuffle(available, kind, order1, order2)
    ensures kind != MF ==> |Generate(count, kind, order1, order2).duos| == |Pools(available, kind).0| / 2
    ensures kind == MF ==> |Generate(count, kind, order1, order2).duos|
                           == if |Pools(available, kind).0| < |Pools(available, kind).1| then |Pools(available, kind).0| else |Pools(available, kind).1|
  {
    assert |order1| == |multiset(order1)|;
    assert |order2| == |multiset(order2)|;
    if kind == MF { MixedCount(count, order1, order2); } else { SameSexCount(count, order1); }
  }

  /**
   * Same-sex generation from n candidates gives n / 2 teams; mixed generation
   * gives as many teams as the smaller of the male and female pools.
   */
  lemma SuggestionCount(selected: seq<SetupTeam>, checkedIn: seq<Profile>, kind: Kind, freq: map<string, int>,
                        order1: seq<Profile>, order2: seq<Profile>, times: map<string, int>, now: int)
    requires IsShuffle(Available(checkedIn, AssignedIds(selected)), kind, order1, order2)
    ensures var pools := Pools(Available(checkedIn, AssignedIds(selected)), kind);
            var n := |Suggestion(selected, checkedIn, kind, freq, order1, order2, times, now)|;
            (kind != MF ==> n == |pools.0| / 2)
            && (kind == MF ==> n == if |pools.0| < |pools.1| then |pools.0| else |pools.1|)
  {
    var available := Available(checkedIn, AssignedIds(selected));
    GeneratedCount(PairCount(freq), kind, available, order1, order2);
    SortByCheckInPermutes(times, now, AsTeams(Generate(PairCount(freq), kind, order1, order2).duos));
  }

  /** In a mixed pairing every team has a male first player and a female second player from the pool. */
  lemma MixedSexes(count: (string, string) -> int, available: seq<Profile>, order1: seq<Profile>, order2: seq<Profile>, t: SetupTeam)
    requires IsShuffle(available, MF, order1, order2)
    requires t in AsTeams(MixedPairing(count, order1, order2).duos)
    ensures exists p :: p in available && p.id == t.p1 && p.sex == "M"
    ensures exists q :: q in available && q.id == t.p2 && q.sex == "F"
  {
    var g := MixedPairing(count, order1, order2);
    InAsTeams(g.duos, t);
    var d :| d in g.duos && d.first in Firsts(g.duos) && d.second in Seconds(g.duos)
             && t == SetupTeam(d.first.id, d.second.id);
    MixedPartition(count, order1, order2);
    PlacedFromPool(d.first, Firsts(g.duos), g.rest1, order1, Males(available));
    PlacedFromPool(d.second, Seconds(g.duos), g.rest2, order2, Females(available));
  }

  lemma PlacedFromPool(x: Profile, placed: seq<Profile>, left: seq<Profile>, order: seq<Profile>, pool: seq<Profile>)
    requires x in placed
    requires multiset(placed) + multiset(left) == multiset(order)
    requires multiset(order) == multiset(pool)
    ensures x in pool
  {
    assert x in multiset(placed);
    assert x in multiset(pool);
  }

  /** In a mixed suggestion every team has a male first player and a female second player. */
  lemma SuggestionMixedSexes(selected: seq<SetupTeam>, checkedIn: seq<Profile>, freq: map<string, int>,
                             order1: seq<Profile>, order2: seq<Profile>, times: map<string, int>, now: int, t: SetupTeam)
    requires IsShuffle(Available(checkedIn, AssignedIds(selected)), MF, order1, order2)
    requires t in Suggestion(selected, checkedIn, MF, freq, order1, order2, times, now)
    ensures exists p :: p in checkedIn && p.id == t.p1 && p.sex == "M"
    ensures exists q :: q in checkedIn && q.id == t.p2 && q.sex == "F"
  {
    var available := Available(checkedIn, AssignedIds(selected));
    var unsorted := AsTeams(MixedPairing(PairCount(freq), order1, order2).duos);
    SortByCheckInPermutes(times, now, unsorted);
    assert t in multiset(unsorted);
    MixedSexes(PairCount(freq), available, order1, order2, t);
  }
}
