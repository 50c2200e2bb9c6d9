/**
 * The web app's profile service: lookup by participant id, the participant
 * list and the free-text search, with the simulated network delays dropped
 * and the participant database as a parameter.  The search tests the same
 * fields as the XR app's, in another order.
 */
module ProfileService {
  import opened Types
  import opened Text
  import Sequences
  import XrProfileService

  /** The first profile in the database with that id, and nothing exactly when there is none. */
  function GetProfileById(db: seq<Profile>, participantId: string): (r: Option<Profile>)
    ensures r.Some? ==> r.value.id == participantId
    ensures r.Some? ==> exists i :: 0 <= i < |db| && db[i] == r.value &&
                                   forall j :: 0 <= j < i ==> db[j].id != participantId
    ensures r.None? <==> forall p :: p in db ==> p.id != participantId
  {
    XrProfileService.GetProfileById(db, participantId)
  }

  /** The whole participant list, as a copy equal to the database. */
  function GetAllParticipants(db: seq<Profile>): (r: seq<Profile>)
    ensures r == db
  {
    XrProfileService.GetAllParticipants(db)
  }

  /** The query, lower-cased, is in the name, the role, the company, a skill or an interest, lower-cased. */
  predicate MatchesQuery(p: Profile, query: string) {
    var q := Lower(query);
    Contains(Lower(p.name), q) ||
    Contains(Lower(p.role), q) ||
    Contains(Lower(p.company), q) ||
    XrProfileService.AnyContains(p.skills, q) ||
    XrProfileService.AnyContains(p.interests, q)
  }

  /** The matching profiles, in database order. */
  function SearchParticipants(db: seq<Profile>, query: string): (r: seq<Profile>)
    ensures Sequences.IsSubsequence(r, db)
    ensures |r| <= |db|
    ensures forall p :: p in r ==> MatchesQuery(p, query)
    ensures forall p :: p in db && MatchesQuery(p, query) ==> p in r
    ensures forall p :: multiset(r)[p] == if MatchesQuery(p, query) then multiset(db)[p] else 0
    decreases |db|
  {
    if db == [] then []
    else
      var rest := SearchParticipants(db[1..], query);
      Sequences.SubsequenceBounds(rest, db[1..]);
      assert db == [db[0]] + db[1..];
      var r := if MatchesQuery(db[0], query) then [db[0]] + rest else rest;
      assert Sequences.IsSubsequence(r, db);
      Sequences.SubsequenceBounds(r, db);
      r
  }

  /** Both apps find the same profiles, in the same order, for every query. */
  lemma {:induction false} SearchAgreesWithXrApp(db: seq<Profile>, query: string)
    ensures SearchParticipants(db, query) == XrProfileService.SearchParticipants(db, query)
    decreases |db|
  {
    if db != [] {
      assert MatchesQuery(db[0], query) == XrProfileService.MatchesQuery(db[0], query);
      SearchAgreesWithXrApp(db[1..], query);
    }
  }

  /** The empty query returns the whole database. */
  lemma SearchEmptyQuery(db: seq<Profile>)
    ensures SearchParticipants(db, "") == db
  {
    SearchAgreesWithXrApp(db, "");
    XrProfileService.SearchEmptyQuery(db);
  }
}
