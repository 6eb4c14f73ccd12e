/** The players list: the surname search over the loaded page, its pager and the sex label. */
module PlayerList {
  import opened Common

  datatype PlayerRow = PlayerRow(id: string, surname: string, sex: string, role: string)

  /** `toLowerCase` on one character (ASCII letters only). */
  function LowerChar(c: char): char {
    if 'A' <= c <= 'Z' then (c as int - 'A' as int + 'a' as int) as char else c
  }

  /** `toLowerCase`, character by character. */
  function ToLower(s: string): (r: string)
    ensures |r| == |s|
    ensures forall i :: 0 <= i < |s| ==> r[i] == LowerChar(s[i])
    decreases |s|
  {
    if s == [] then [] else [LowerChar(s[0])] + ToLower(s[1..])
  }

  /** Lower-casing twice is lower-casing once. */
  lemma ToLowerIdempotent(s: string)
    ensures ToLower(ToLower(s)) == ToLower(s)
  {
  }

  /** `s.includes(sub)`: `sub` occurs at some position of `s`. */
  predicate Includes(s: string, sub: string) {
    exists i :: 0 <= i <= |s| && OccursAt(s, sub, i)
  }

  /** `sub` is the slice of `s` starting at `i`. */
  predicate OccursAt(s: string, sub: string, i: int) {
    0 <= i && i + |sub| <= |s| && s[i..i + |sub|] == sub
  }

  lemma IncludesEmpty(s: string)
    ensures Includes(s, "")
  {
    assert OccursAt(s, "", 0);
  }

  /** The search test of one row. */
  predicate Matches(p: PlayerRow, query: string) {
    Includes(ToLower(p.surname), ToLower(query))
  }

  /** `filteredPlayers`: the rows of the page whose surname contains the query, ignoring case. */
  function FilteredPlayers(players: seq<PlayerRow>, query: string): seq<PlayerRow> {
    Filter(players, (p: PlayerRow) => Matches(p, query))
  }

  /**
   * A row is listed exactly when it is on the page and its lower-cased
   * surname contains the lower-cased query; the page order is kept.
   */
  lemma FilteredExactly(players: seq<PlayerRow>, query: string, p: PlayerRow)
    ensures p in FilteredPlayers(players, query) <==> p in players && Matches(p, query)
    ensures IsSubsequence(FilteredPlayers(players, query), players)
  {
    var r := FilteredPlayers(players, query);
    if p in r {
      var i :| 0 <= i < |r| && r[i] == p;
    }
    if p in players && Matches(p, query) {
      var i :| 0 <= i < |players| && players[i] == p;
    }
  }

  /** An empty query lists the whole page. */
  lemma {:induction false} EmptyQueryKeepsAll(players: seq<PlayerRow>)
    ensures FilteredPlayers(players, "") == players
    decreases |players|
  {
    if players != [] {
      IncludesEmpty(ToLower(players[0].surname));
      EmptyQueryKeepsAll(players[1..]);
    }
  }

  /** The search ignores the case of the query. */
  lemma {:induction false} QueryCaseIgnored(players: seq<PlayerRow>, query: string)
    ensures FilteredPlayers(players, ToLower(query)) == FilteredPlayers(players, query)
    decreases |players|
  {
    if players != [] {
      ToLowerIdempotent(query);
      assert Matches(players[0], ToLower(query)) == Matches(players[0], query);
      QueryCaseIgnored(players[1..], query);
    }
  }

  /** Searching for a player's whole surname, in any case, lists that player if it is on the page. */
  lemma FullSurnameFinds(players: seq<PlayerRow>, p: PlayerRow, query: string)
    requires p in players
    requires ToLower(query) == ToLower(p.surname)
    ensures p in FilteredPlayers(players, query)
  {
    var s := ToLower(p.surname);
    assert s[0..0 + |s|] == s;
    assert OccursAt(s, ToLower(query), 0);
    FilteredExactly(players, query, p);
  }

  /** The badge text: "Male" for "M", "Female" for anything else. */
  function SexLabel(sex: string): string
  {
    if sex == "M" then "Male" else "Female"
  }

  /** The role badge: the default style for managers, the secondary style for everyone else. */
  function RoleIsDefaultStyle(role: string): bool
  {
    role == "manager"
  }

  /**
   * The badges agree with the two values each field can hold: the sexes read
   * as the form's "Male" and "Female" and never alike, and the two roles get
   * different styles.
   */
  lemma BadgesMatchFormValues()
    ensures SexLabel("M") == "Male" && SexLabel("F") == "Female"
    ensures SexLabel("M") != SexLabel("F")
    ensures RoleIsDefaultStyle("manager") && !RoleIsDefaultStyle("player")
  {
  }
}
