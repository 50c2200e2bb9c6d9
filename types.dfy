/** The records shared by the matching engine, the connection store and the handshake system. */
module Types {

  datatype Option<T> = None | Some(value: T)

  /** A participant.  Display-only fields that nothing here reads (image URL, LinkedIn URL, match percentage) are omitted. */
  datatype Profile = Profile(
    id: string,
    name: string,
    role: string,
    company: string,
    bio: string,
    interests: seq<string>,
    skills: seq<string>,
    location: Option<string>,
    experienceYears: Option<int>)

  /** The three tiers, from best to worst. */
  datatype MatchLevel = EXCELLENT | GOOD | LOW

  datatype MatchResult = MatchResult(score: int, matchLevel: MatchLevel, reasons: seq<string>)

  /** A stored connection; `connectedAt` is a timestamp in milliseconds. */
  datatype Connection = Connection(
    id: string,
    profile: Profile,
    matchScore: int,
    connectedAt: int,
    appreciationCount: int)
}
