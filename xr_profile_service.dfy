/**
 * The XR app's profile service: lookup by participant id, the QR payload
 * rule it applies (prefix, or a bare `p` and three digits), the participant
 * list and the free-text search.  The participant database is a parameter.
 */
module XrProfileService {
  import opened Types
  import opened Text
  import Sequences
  import Constants
  import QrScanner

  /** The first profile in the database with that id, and nothing exactly when there is none. */
  function GetProfileById(db: seq<Profile>, participantId: string): (r: Option<Profile>)
    ensures r.Some? ==> r.value.id == participantId
    ensures r.Some? ==> exists i :: 0 <= i < |db| && db[i] == r.value &&
                                   forall j :: 0 <= j < i ==> db[j].id != participantId
    ensures r.None? <==> forall p :: p in db ==> p.id != participantId
    decreases |db|
  {
    if db == [] then None
    else if db[0].id == participantId then
      assert db[0] == db[0];
      Some(db[0])
    else
      var r := GetProfileById(db[1..], participantId);
      assert forall p :: p in db ==> p == db[0] || p in db[1..];
      if r.Some? then
        var i :| 0 <= i < |db[1..]| && db[1..][i] == r.value &&
                 forall j :: 0 <= j < i ==> db[1..][j].id != participantId;
        assert db[i + 1] == r.value;
        r
      else
        r
  }

  /** A bare participant id: `p` followed by exactly three ASCII digits. */
  predicate IsPlainParticipantId(s: string) {
    |s| == 4 && s[0] == 'p' && IsDigit(s[1]) && IsDigit(s[2]) && IsDigit(s[3])
  }

  /**
   * The participant id in a QR payload: after the prefix, the rest exactly
   * as it is (untrimmed, possibly empty); otherwise a bare participant id
   * as it is; anything else, and the empty payload, gives nothing.
   */
  function ParseQRCode(qrData: string): (r: Option<string>)
    ensures qrData == [] ==> r.None?
    ensures r.Some? ==> qrData == Constants.QR_PREFIX + r.value || (r.value == qrData && IsPlainParticipantId(qrData))
    ensures !StartsWith(qrData, Constants.QR_PREFIX) ==> (r.Some? <==> IsPlainParticipantId(qrData))
    ensures StartsWith(qrData, Constants.QR_PREFIX) ==> r.Some?
  {
    var p := Constants.QR_PREFIX;
    if qrData == [] then None
    else if StartsWith(qrData, p) then
      assert qrData == p + qrData[|p|..];
      Some(qrData[|p|..])
    else if StartsWith(qrData, "p") && IsPlainParticipantId(qrData) then Some(qrData)
    else None
  }

  /** Every payload built from the prefix reads back as exactly what follows it. */
  lemma PrefixRoundTrip(s: string)
    ensures ParseQRCode(Constants.QR_PREFIX + s) == Some(s)
  {
    var q := Constants.QR_PREFIX + s;
    assert q[..|Constants.QR_PREFIX|] == Constants.QR_PREFIX;
    assert q[|Constants.QR_PREFIX|..] == s;
  }

  /** A bare participant id is accepted unchanged. */
  lemma PlainIdAccepted(s: string)
    requires IsPlainParticipantId(s)
    ensures ParseQRCode(s) == Some(s)
  {
    assert s[0] != Constants.QR_PREFIX[0];
    assert s[..1] == "p";
  }

  /**
   * The scanner service reads the same id as this rule from a bare
   * participant id and from a prefixed id without surrounding whitespace.
   */
  lemma ParsersAgree(s: string, now: int)
    requires IsPlainParticipantId(s) || (s != [] && IsTrimmed(s))
    ensures IsPlainParticipantId(s) ==>
      ParseQRCode(s) == Some(s) && QrScanner.ParseQRCode(s, now).Some? &&
      QrScanner.ParseQRCode(s, now).value.participantId == s
    ensures s != [] && IsTrimmed(s) ==>
      ParseQRCode(Constants.QR_PREFIX + s) == Some(s) &&
      QrScanner.ParseQRCode(Constants.QR_PREFIX + s, now).Some? &&
      QrScanner.ParseQRCode(Constants.QR_PREFIX + s, now).value.participantId == s
  {
    if IsPlainParticipantId(s) {
      PlainIdAccepted(s);
      assert s[0] != Constants.QR_PREFIX[0];
      assert IsTrimmed(s);
      QrScanner.RawRoundTrip(s, now);
    }
    if s != [] && IsTrimmed(s) {
      PrefixRoundTrip(s);
      QrScanner.PrefixedRoundTrip(s, now);
    }
  }

  /** The rules differ on whitespace after the prefix: this one keeps it, the scanner trims it. */
  lemma ParsersDisagreeOnSpace(now: int)
    ensures ParseQRCode(Constants.QR_PREFIX + " p001") == Some(" p001")
    ensures QrScanner.ParseQRCode(Constants.QR_PREFIX + " p001", now).value.participantId == "p001"
  {
    PrefixRoundTrip(" p001");
    var q := Constants.QR_PREFIX + " p001";
    assert q[..|Constants.QR_PREFIX|] == Constants.QR_PREFIX;
    assert q[|Constants.QR_PREFIX|..] == [' '] + "p001";
    QrScanner.LeadingSpace("p001", now);
  }

  /** The whole participant list, as a copy equal to the database. */
  function GetAllParticipants(db: seq<Profile>): (r: seq<Profile>)
    ensures r == db
  {
    db[..]
  }

  /** Some entry of `items`, lower-cased, contains `lowerQuery`. */
  predicate AnyContains(items: seq<string>, lowerQuery: string) {
    exists s :: s in items && Contains(Lower(s), lowerQuery)
  }

  /** The query, lower-cased, is in the name, a skill, an interest, the role or the company, lower-cased. */
  predicate MatchesQuery(p: Profile, query: string) {
    var q := Lower(query);
    Contains(Lower(p.name), q) ||
    AnyContains(p.skills, q) ||
    AnyContains(p.interests, q) ||
    Contains(Lower(p.role), q) ||
    Contains(Lower(p.company), q)
  }

  /** The matching profiles, in database order. */
  function SearchParticipants(db: seq<Profile>, query: string): (r: seq<Profile>)
    ensures Sequences.IsSubsequence(r, db)
    ensures forall p :: p in r ==> MatchesQuery(p, query)
    ensures forall p :: p in db && MatchesQuery(p, query) ==> p in r
    ensures forall p :: multiset(r)[p] == if MatchesQuery(p, query) then multiset(db)[p] else 0
    decreases |db|
  {
    if db == [] then []
    else
      var rest := SearchParticipants(db[1..], query);
      Sequences.SubsequenceBounds(rest, db[1..]);
      assert db == [db[0]] + db[1..];
      if MatchesQuery(db[0], query) then [db[0]] + rest else rest
  }

  /** The empty query matches every profile, so it returns the whole database. */
  lemma {:induction false} SearchEmptyQuery(db: seq<Profile>)
    ensures SearchParticipants(db, "") == db
    decreases |db|
  {
    if db != [] {
      ContainsEmpty(Lower(db[0].name));
      assert MatchesQuery(db[0], "");
      SearchEmptyQuery(db[1..]);
    }
  }

  /** A search never returns more profiles than the database holds. */
  lemma SearchBounded(db: seq<Profile>, query: string)
    ensures |SearchParticipants(db, query)| <= |db|
  {
    Sequences.SubsequenceBounds(SearchParticipants(db, query), db);
  }
}
