/**
 * How often two players were teammates in earlier events: the reverse id map,
 * the order-independent pair key and the pair-frequency count that the team
 * generator of the match page reads.
 */
module PairHistory {
  import opened Common

  /** One side of a decoded match-history entry: the numeric ids of its two players. */
  datatype Side = Side(player1: int, player2: int)

  /** A decoded match-history entry; a missing winner or loser is `None`. */
  datatype HistoryEntry = HistoryEntry(winner: Option<Side>, loser: Option<Side>)

  /**
   * A past event as the generator sees it: the entries of its stored player map
   * in `Object.entries` order, and its decoded match history. `history` is `None`
   * when the stored state has no queue state, when that state does not parse, or
   * when it has no match history.
   */
  datatype PastEvent = PastEvent(playerMap: Option<seq<(string, int)>>, history: Option<seq<HistoryEntry>>)

  // ---------------------------------------------------------------------------
  // Reverse map: numeric id -> profile id
  // ---------------------------------------------------------------------------

  /** `reverseMap.set(id, uuid)` over the entries in order: a later entry overwrites an earlier one. */
  function ReverseMap(entries: seq<(string, int)>): map<int, string>
    decreases |entries|
  {
    if entries == [] then map[]
    else
      var last := entries[|entries| - 1];
      ReverseMap(entries[..|entries| - 1])[last.1 := last.0]
  }

  /** The reverse map holds exactly the numeric ids that occur among the entries. */
  lemma {:induction false} ReverseMapDomain(entries: seq<(string, int)>, id: int)
    ensures id in ReverseMap(entries) <==> exists j :: 0 <= j < |entries| && entries[j].1 == id
    decreases |entries|
  {
    if entries != [] {
      var init := entries[..|entries| - 1];
      ReverseMapDomain(init, id);
      if id in ReverseMap(init) {
        var j :| 0 <= j < |init| && init[j].1 == id;
        assert entries[j].1 == id;
      }
      if exists j :: 0 <= j < |entries| && entries[j].1 == id {
        var j :| 0 <= j < |entries| && entries[j].1 == id;
        if j < |init| { assert init[j].1 == id; }
      }
    }
  }

  /** An id maps back to the profile of the last entry that carries it. */
  lemma {:induction false} ReverseMapLastWins(entries: seq<(string, int)>, i: int)
    requires 0 <= i < |entries|
    requires forall j :: i < j < |entries| ==> entries[j].1 != entries[i].1
    ensures entries[i].1 in ReverseMap(entries)
    ensures ReverseMap(entries)[entries[i].1] == entries[i].0
    decreases |entries|
  {
    if i < |entries| - 1 {
      var init := entries[..|entries| - 1];
      assert init[i] == entries[i];
      ReverseMapLastWins(init, i);
    }
  }

  /** Over the entries of an injective player map, the reverse map is its inverse. */
  lemma ReverseMapInverts(entries: seq<(string, int)>, i: int)
    requires 0 <= i < |entries|
    requires forall j, k :: 0 <= j < k < |entries| ==> entries[j].1 != entries[k].1
    ensures entries[i].1 in ReverseMap(entries) && ReverseMap(entries)[entries[i].1] == entries[i].0
  {
    ReverseMapLastWins(entries, i);
  }

  /** The `forEach` that fills the reverse map. */
  method BuildReverseMap(entries: seq<(string, int)>) returns (rm: map<int, string>)
    ensures rm == ReverseMap(entries)
  {
    rm := map[];
    var i := 0;
    while i < |entries|
      invariant 0 <= i <= |entries|
      invariant rm == ReverseMap(entries[..i])
    {
      assert entries[..i + 1][..i] == entries[..i];
      rm := rm[entries[i].1 := entries[i].0];
      i := i + 1;
    }
    assert entries[..|entries|] == entries;
  }

  /** `reverseMap.get(id)`: `None` stands for `undefined`. */
  function Lookup(rm: map<int, string>, id: int): Option<string>
  {
    if id in rm then Some(rm[id]) else None
  }

  // ---------------------------------------------------------------------------
  // The pair key
  // ---------------------------------------------------------------------------

  /** The default order of `Array.prototype.sort` on strings: character by character, a prefix first. */
  predicate LexLe(a: string, b: string)
    decreases |a|
  {
    if a == [] then true
    else if b == [] then false
    else if a[0] != b[0] then a[0] < b[0]
    else LexLe(a[1..], b[1..])
  }

  /** Any two strings are comparable. */
  lemma {:induction false} LexTotal(a: string, b: string)
    ensures LexLe(a, b) || LexLe(b, a)
    decreases |a|
  {
    if a != [] && b != [] && a[0] == b[0] {
      LexTotal(a[1..], b[1..]);
    }
  }

  /** Two strings each at most the other are equal. */
  lemma {:induction false} LexAntisymmetric(a: string, b: string)
    requires LexLe(a, b) && LexLe(b, a)
    ensures a == b
    decreases |a|
  {
    if a != [] {
      LexAntisymmetric(a[1..], b[1..]);
      assert a == [a[0]] + a[1..] && b == [b[0]] + b[1..];
    }
  }

  /** `[a, b].sort().join('|')`. */
  function PairKey(a: string, b: string): string
  {
    if LexLe(a, b) then a + "|" + b else b + "|" + a
  }

  /** The key of a pair does not depend on which player comes first. */
  lemma PairKeySymmetric(a: string, b: string)
    ensures PairKey(a, b) == PairKey(b, a)
  {
    LexTotal(a, b);
    if LexLe(a, b) && LexLe(b, a) {
      LexAntisymmetric(a, b);
    }
  }

  /** Joining with a separator that neither left part contains can be undone. */
  lemma JoinInjective(x: string, y: string, u: string, v: string)
    requires '|' !in x && '|' !in u
    requires x + "|" + y == u + "|" + v
    ensures x == u && y == v
  {
    var s := x + "|" + y;
    assert forall k :: 0 <= k < |x| ==> s[k] == x[k];
    assert forall k :: 0 <= k < |u| ==> s[k] == u[k];
    assert s[|x|] == '|' && s[|u|] == '|';
    assert |x| == |u|;
    assert x == s[..|x|] && u == s[..|u|];
    assert y == s[|x| + 1..] && v == s[|u| + 1..];
  }

  /** For ids without a '|', equal keys mean the same unordered pair. */
  lemma PairKeyIdentifiesPair(a: string, b: string, c: string, d: string)
    requires '|' !in a && '|' !in b && '|' !in c && '|' !in d
    requires PairKey(a, b) == PairKey(c, d)
    ensures (a == c && b == d) || (a == d && b == c)
  {
    var k := PairKey(a, b);
    if k == a + "|" + b {
      if k == c + "|" + d { JoinInjective(a, b, c, d); } else { JoinInjective(a, b, d, c); }
    } else {
      if k == c + "|" + d { JoinInjective(b, a, c, d); } else { JoinInjective(b, a, d, c); }
    }
  }

  // ---------------------------------------------------------------------------
  // Pair frequency
  // ---------------------------------------------------------------------------

  /** `pairFrequency.get(key) || 0`. */
  function Freq(freq: map<string, int>, key: string): int
  {
    if key in freq then freq[key] else 0
  }

  /** `countPair`: add one for the pair when both numeric ids map to a non-empty profile id. */
  function CountPair(rm: map<int, string>, freq: map<string, int>, side: Side): map<string, int>
  {
    var u1 := Lookup(rm, side.player1);
    var u2 := Lookup(rm, side.player2);
    if Truthy(u1) && Truthy(u2) then
      var key := PairKey(u1.value, u2.value);
      freq[key := Freq(freq, key) + 1]
    else freq
  }

  /** One history entry: its winner pair, then its loser pair. */
  function CountEntry(rm: map<int, string>, freq: map<string, int>, entry: HistoryEntry): map<string, int>
  {
    var afterWinner := if entry.winner.Some? then CountPair(rm, freq, entry.winner.value) else freq;
    if entry.loser.Some? then CountPair(rm, afterWinner, entry.loser.value) else afterWinner
  }

  /** The entries of one event's history, in order. */
  function CountHistory(rm: map<int, string>, freq: map<string, int>, history: seq<HistoryEntry>): map<string, int>
    decreases |history|
  {
    if history == [] then freq
    else CountEntry(rm, CountHistory(rm, freq, history[..|history| - 1]), history[|history| - 1])
  }

  /** Past events in order; an event without a player map or a usable history adds nothing. */
  function CountEvents(freq: map<string, int>, events: seq<PastEvent>): map<string, int>
    decreases |events|
  {
    if events == [] then freq
    else
      var before := CountEvents(freq, events[..|events| - 1]);
      var ev := events[|events| - 1];
      if ev.playerMap.Some? && ev.history.Some? then
        CountHistory(ReverseMap(ev.playerMap.value), before, ev.history.value)
      else before
  }

  /** The frequency map that `handleGenerateTeams` builds from the past events. */
  function PairFrequency(events: seq<PastEvent>): map<string, int>
  {
    CountEvents(map[], events)
  }

  /** The loops that fill `pairFrequency`. */
  method BuildPairFrequency(events: seq<PastEvent>) returns (freq: map<string, int>)
    ensures freq == PairFrequency(events)
  {
    freq := map[];
    var e := 0;
    while e < |events|
      invariant 0 <= e <= |events|
      invariant freq == CountEvents(map[], events[..e])
    {
      assert events[..e + 1][..e] == events[..e];
      var ev := events[e];
      if ev.playerMap.Some? && ev.history.Some? {
        var rm := BuildReverseMap(ev.playerMap.value);
        var history := ev.history.value;
        ghost var start := freq;
        var h := 0;
        while h < |history|
          invariant 0 <= h <= |history|
          invariant freq == CountHistory(rm, start, history[..h])
        {
          assert history[..h + 1][..h] == history[..h];
          var entry := history[h];
          if entry.winner.Some? {
            freq := CountPair(rm, freq, entry.winner.value);
          }
          if entry.loser.Some? {
            freq := CountPair(rm, freq, entry.loser.value);
          }
          h := h + 1;
        }
        assert history[..|history|] == history;
      }
      e := e + 1;
    }
    assert events[..|events|] == events;
  }

  // ---------------------------------------------------------------------------
  // What the count means
  // ---------------------------------------------------------------------------

  /** This side of an entry names two mapped players whose pair key is `key`. */
  predicate SideIsPair(rm: map<int, string>, side: Option<Side>, key: string)
  {
    side.Some?
    && Truthy(Lookup(rm, side.value.player1))
    && Truthy(Lookup(rm, side.value.player2))
    && PairKey(Lookup(rm, side.value.player1).value, Lookup(rm, side.value.player2).value) == key
  }

  /** How many winner or loser sides of a history form the pair `key`. */
  function Occurrences(rm: map<int, string>, history: seq<HistoryEntry>, key: string): nat
    decreases |history|
  {
    if history == [] then 0
    else
      var last := history[|history| - 1];
      Occurrences(rm, history[..|history| - 1], key)
      + (if SideIsPair(rm, last.winner, key) then 1 else 0)
      + (if SideIsPair(rm, last.loser, key) then 1 else 0)
  }

  /** Occurrences over all usable past events. */
  function EventOccurrences(events: seq<PastEvent>, key: string): nat
    decreases |events|
  {
    if events == [] then 0
    else
      var ev := events[|events| - 1];
      EventOccurrences(events[..|events| - 1], key)
      + (if ev.playerMap.Some? && ev.history.Some? then Occurrences(ReverseMap(ev.playerMap.value), ev.history.value, key) else 0)
  }

  lemma CountPairEffect(rm: map<int, string>, freq: map<string, int>, side: Side, key: string)
    ensures Freq(CountPair(rm, freq, side), key) == Freq(freq, key) + (if SideIsPair(rm, Some(side), key) then 1 else 0)
  {
  }

  /** Counting a history adds, for every key, the number of sides that form that pair. */
  lemma {:induction false} CountHistoryOccurrences(rm: map<int, string>, freq: map<string, int>, history: seq<HistoryEntry>, key: string)
    ensures Freq(CountHistory(rm, freq, history), key) == Freq(freq, key) + Occurrences(rm, history, key)
    decreases |history|
  {
    if history != [] {
      var init := history[..|history| - 1];
      var last := history[|history| - 1];
      CountHistoryOccurrences(rm, freq, init, key);
      var before := CountHistory(rm, freq, init);
      var afterWinner := if last.winner.Some? then CountPair(rm, before, last.winner.value) else before;
      if last.winner.Some? { CountPairEffect(rm, before, last.winner.value, key); }
      if last.loser.Some? { CountPairEffect(rm, afterWinner, last.loser.value, key); }
    }
  }

  /** Each key of the frequency map counts exactly the past winner and loser sides that formed that pair. */
  lemma {:induction false} PairFrequencyCounts(events: seq<PastEvent>, key: string)
    ensures Freq(PairFrequency(events), key) == EventOccurrences(events, key)
  {
    EventsOccurrences(map[], events, key);
  }

  lemma {:induction false} EventsOccurrences(freq: map<string, int>, events: seq<PastEvent>, key: string)
    ensures Freq(CountEvents(freq, events), key) == Freq(freq, key) + EventOccurrences(events, key)
    decreases |events|
  {
    if events != [] {
      var init := events[..|events| - 1];
      var ev := events[|events| - 1];
      EventsOccurrences(freq, init, key);
      if ev.playerMap.Some? && ev.history.Some? {
        CountHistoryOccurrences(ReverseMap(ev.playerMap.value), CountEvents(freq, init), ev.history.value, key);
      }
    }
  }

  /** Swapping the two players of a side counts the same pair. */
  lemma CountPairSymmetric(rm: map<int, string>, freq: map<string, int>, a: int, b: int)
    ensures CountPair(rm, freq, Side(a, b)) == CountPair(rm, freq, Side(b, a))
  {
    if a in rm && b in rm {
      PairKeySymmetric(rm[a], rm[b]);
    }
  }
}
