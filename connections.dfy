/**
 * The connection store: a list of connections, one per profile, that is
 * upserted on save, counted, searched by profile, filtered by connection id
 * and viewed sorted by score or by date.  The browser storage behind it is
 * the `connections` field.
 */
module ConnectionService {
  import opened Types
  import Text
  import Sequences

  /** The id given to a connection made at time `now`: `conn_<now>_<profile id>`. */
  function ConnectionId(now: nat, profileId: string): string {
    "conn_" + Text.NatToString(now) + "_" + profileId
  }

  /** The position of the first connection to the profile, if any. */
  function IndexOfProfile(cs: seq<Connection>, profileId: string): (r: Option<nat>)
    ensures r.Some? ==> r.value < |cs| && cs[r.value].profile.id == profileId
    ensures r.Some? ==> forall j :: 0 <= j < r.value ==> cs[j].profile.id != profileId
    ensures r.None? <==> forall j :: 0 <= j < |cs| ==> cs[j].profile.id != profileId
    decreases |cs|
  {
    if cs == [] then None
    else if cs[0].profile.id == profileId then Some(0)
    else
      match IndexOfProfile(cs[1..], profileId)
      case None => None
      case Some(i) => Some(i + 1)
  }

  /** The first matching position is the one `IndexOfProfile` finds. */
  lemma {:induction false} IndexOfFirstMatch(cs: seq<Connection>, profileId: string, i: nat)
    requires i < |cs| && cs[i].profile.id == profileId
    requires forall j :: 0 <= j < i ==> cs[j].profile.id != profileId
    ensures IndexOfProfile(cs, profileId) == Some(i)
    decreases i
  {
    if i > 0 {
      IndexOfFirstMatch(cs[1..], profileId, i - 1);
    }
  }

  /** No profile is connected twice. */
  predicate UniqueProfileIds(cs: seq<Connection>) {
    forall i, j :: 0 <= i < j < |cs| ==> cs[i].profile.id != cs[j].profile.id
  }

  /** The connections whose id is not `connectionId`, in their order. */
  function WithoutConnection(cs: seq<Connection>, connectionId: string): (r: seq<Connection>)
    ensures Sequences.IsSubsequence(r, cs)
    ensures forall c :: c in r ==> c.id != connectionId
    ensures forall c :: c in cs && c.id != connectionId ==> c in r
    ensures (forall c :: c in cs ==> c.id != connectionId) ==> r == cs
    ensures forall c :: multiset(r)[c] == if c.id != connectionId then multiset(cs)[c] else 0
    decreases |cs|
  {
    if cs == [] then []
    else
      var rest := WithoutConnection(cs[1..], connectionId);
      Sequences.SubsequenceBounds(rest, cs[1..]);
      assert cs == [cs[0]] + cs[1..];
      if cs[0].id != connectionId then [cs[0]] + rest else rest
  }

  /** The two orders the stored list can be viewed in. */
  datatype SortKey = ByScore | ByDate

  function Key(c: Connection, key: SortKey): int {
    match key
    case ByScore => c.matchScore
    case ByDate => c.connectedAt
  }

  /** The key never increases along the list. */
  predicate Descending(cs: seq<Connection>, key: SortKey) {
    forall i, j :: 0 <= i < j < |cs| ==> Key(cs[i], key) >= Key(cs[j], key)
  }

  /** `c` placed before the first element whose key is not above its own. */
  function Insert(c: Connection, cs: seq<Connection>, key: SortKey): (r: seq<Connection>)
    requires Descending(cs, key)
    ensures Descending(r, key)
    ensures multiset(r) == multiset(cs) + multiset{c}
    ensures |r| > 0 && (r[0] == c || (cs != [] && r[0] == cs[0]))
    decreases |cs|
  {
    if cs == [] || Key(cs[0], key) <= Key(c, key) then [c] + cs
    else
      var rest := Insert(c, cs[1..], key);
      assert cs == [cs[0]] + cs[1..];
      InsertDescending(cs[0], rest, key);
      [cs[0]] + rest
  }

  /** A key at least the head's may go in front of a descending list. */
  lemma InsertDescending(c: Connection, cs: seq<Connection>, key: SortKey)
    requires Descending(cs, key)
    requires cs == [] || Key(c, key) >= Key(cs[0], key)
    ensures Descending([c] + cs, key)
  {
    var r := [c] + cs;
    forall i, j | 0 <= i < j < |r|
      ensures Key(r[i], key) >= Key(r[j], key)
    {
      if i == 0 && j > 1 {
        assert Key(cs[0], key) >= Key(cs[j - 1], key);
      }
    }
  }

  /** The list sorted on `key`, largest first: insertion sort, which keeps equal keys in list order. */
  function SortDescending(cs: seq<Connection>, key: SortKey): (r: seq<Connection>)
    ensures Descending(r, key)
    ensures multiset(r) == multiset(cs)
    decreases |cs|
  {
    if cs == [] then []
    else
      assert cs == [cs[0]] + cs[1..];
      Insert(cs[0], SortDescending(cs[1..], key), key)
  }

  class ConnectionStore {
    /** The stored connections, in insertion order. */
    var connections: seq<Connection>

    /** An empty store, as when nothing has been persisted yet. */
    constructor ()
      ensures connections == []
    {
      connections := [];
    }

    /**
     * Upserts the connection to `profile`: an existing connection to the same
     * profile gets the new score and time and keeps its id, profile and
     * appreciation count; otherwise a new connection is appended.  The value
     * returned is the freshly built connection in both cases.
     */
    method SaveConnection(profile: Profile, matchScore: int, now: nat) returns (connection: Connection)
      modifies this
      ensures connection == Connection(ConnectionId(now, profile.id), profile, matchScore, now, 0)
      ensures old(IndexOfProfile(connections, profile.id)).None? ==>
        connections == old(connections) + [connection]
      ensures old(IndexOfProfile(connections, profile.id)).Some? ==>
        var i := old(IndexOfProfile(connections, profile.id)).value;
        |connections| == |old(connections)| &&
        connections[i] == old(connections)[i].(matchScore := matchScore, connectedAt := now) &&
        forall j :: 0 <= j < |connections| && j != i ==> connections[j] == old(connections)[j]
      ensures IsConnected(profile.id)
      ensures GetConnectionByProfileId(profile.id).Some?
      ensures GetConnectionByProfileId(profile.id).value.matchScore == matchScore
      ensures UniqueProfileIds(old(connections)) ==> UniqueProfileIds(connections)
    {
      connection := Connection(ConnectionId(now, profile.id), profile, matchScore, now, 0);
      var existingIndex := IndexOfProfile(connections, profile.id);
      if existingIndex.Some? {
        var i := existingIndex.value;
        connections := connections[i := connections[i].(matchScore := matchScore, connectedAt := now)];
        IndexOfFirstMatch(connections, profile.id, i);
      } else {
        connections := connections + [connection];
        IndexOfFirstMatch(connections, profile.id, |connections| - 1);
      }
    }

    /** Some stored connection is to the profile: exactly when `IndexOfProfile` finds one. */
    function IsConnected(profileId: string): (connected: bool)
      reads this
      ensures connected <==> IndexOfProfile(connections, profileId).Some?
    {
      exists i :: 0 <= i < |connections| && connections[i].profile.id == profileId
    }

    /** The first stored connection to the profile, present exactly when the profile is connected. */
    function GetConnectionByProfileId(profileId: string): (r: Option<Connection>)
      reads this
      ensures r.Some? <==> IsConnected(profileId)
      ensures r.Some? ==> r.value.profile.id == profileId
      ensures r.Some? ==> exists i :: 0 <= i < |connections| && connections[i] == r.value &&
                                 forall j :: 0 <= j < i ==> connections[j].profile.id != profileId
    {
      match IndexOfProfile(connections, profileId)
      case None => None
      case Some(i) => Some(connections[i])
    }

    /** Deletes every connection with that id and keeps the rest in order. */
    method RemoveConnection(connectionId: string)
      modifies this
      ensures connections == WithoutConnection(old(connections), connectionId)
    {
      connections := WithoutConnection(connections, connectionId);
    }

    /**
     * Adds one appreciation to the first connection to the profile and returns
     * it; with no such connection nothing changes and nothing is returned.
     */
    method SendAppreciation(profileId: string) returns (r: Option<Connection>)
      modifies this
      ensures r.Some? <==> old(IsConnected(profileId))
      ensures r.None? ==> connections == old(connections)
      ensures r.Some? ==>
        var i := old(IndexOfProfile(connections, profileId)).value;
        var c := old(connections)[i];
        connections == old(connections)[i := c.(appreciationCount := c.appreciationCount + 1)] &&
        r.value == connections[i]
    {
      var index := IndexOfProfile(connections, profileId);
      if index.Some? {
        var i := index.value;
        connections := connections[i := connections[i].(appreciationCount := connections[i].appreciationCount + 1)];
        r := Some(connections[i]);
      } else {
        r := None;
      }
    }

    /** The number of stored connections: zero exactly when no profile is connected. */
    function GetConnectionCount(): (n: nat)
      reads this
      ensures n == 0 <==> forall profileId :: !IsConnected(profileId)
    {
      if |connections| > 0 then
        assert IsConnected(connections[0].profile.id);
        |connections|
      else
        |connections|
    }

    /** The stored connections, best score first; the store itself is left as it is. */
    function GetConnectionsSortedByScore(): (r: seq<Connection>)
      reads this
      ensures Descending(r, ByScore)
      ensures multiset(r) == multiset(connections)
    {
      SortDescending(connections, ByScore)
    }

    /** The stored connections, most recent first; the store itself is left as it is. */
    function GetConnectionsSortedByDate(): (r: seq<Connection>)
      reads this
      ensures Descending(r, ByDate)
      ensures multiset(r) == multiset(connections)
    {
      SortDescending(connections, ByDate)
    }

    /** Empties the store. */
    method ClearAllConnections()
      modifies this
      ensures connections == []
      ensures GetConnectionCount() == 0
    {
      connections := [];
    }
  }

  /**
   * Saving a profile again updates its one connection in place: the new
   * score replaces the old, and the appreciation it received is kept.
   */
  method ResaveKeepsAppreciation(profile: Profile) returns (count: nat, score: int, appreciations: int)
    ensures count == 1 && score == 80 && appreciations == 1
  {
    var store := new ConnectionStore();
    var _ := store.SaveConnection(profile, 60, 1000);
    var _ := store.SendAppreciation(profile.id);
    var _ := store.SaveConnection(profile, 80, 2000);
    count := store.GetConnectionCount();
    var c := store.GetConnectionByProfileId(profile.id);
    score := c.value.matchScore;
    appreciations := c.value.appreciationCount;
  }
}
