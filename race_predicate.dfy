/** The include/exclude race filter used by advancement criteria
    (RacePredicate.java). Races are kept abstract: any type with equality. */
module RacePredicates {

  /** The record `RacePredicate(include, exclude)`, with its components named
      `included` and `excluded` here: a race passes when `included` admits it
      (an empty set admits every race) and `excluded` does not name it. */
  datatype RacePredicate<Race(==)> = RacePredicate(included: set<Race>, excluded: set<Race>)

  /** RacePredicate.EMPTY: no race is named on either side. */
  function Empty<Race(==)>(): (p: RacePredicate<Race>)
    ensures p.included == {} && p.excluded == {}
  {
    RacePredicate({}, {})
  }

  /** RacePredicate.test. Its exclusion clause tests `exclude` for emptiness
      before looking the race up; the contract states the simplified meaning,
      in which that emptiness test is redundant. */
  function Test<Race(==)>(p: RacePredicate<Race>, race: Race): (ok: bool)
    ensures ok <==> (p.included == {} || race in p.included) && race !in p.excluded
  {
    (|p.included| == 0 || race in p.included) && !(|p.excluded| != 0 && race in p.excluded)
  }

  /** EMPTY accepts every race. */
  lemma EmptyAcceptsAll<Race>(race: Race)
    ensures Test(Empty(), race)
  {
  }

  /** Exclusion beats inclusion: a race named in both sets is rejected. */
  lemma ExclusionWins<Race>(p: RacePredicate<Race>, race: Race)
    requires race in p.included && race in p.excluded
    ensures !Test(p, race)
  {
  }

  /** With no exclusions, a non-empty include set accepts exactly its members. */
  lemma IncludeOnly<Race>(p: RacePredicate<Race>, race: Race)
    requires p.included != {} && p.excluded == {}
    ensures Test(p, race) <==> race in p.included
  {
  }

  /** RacePredicate.of: the shared EMPTY instance when both sets are empty,
      otherwise a predicate holding exactly the given sets. */
  function Of<Race(==)>(included: set<Race>, excluded: set<Race>): (p: RacePredicate<Race>)
    ensures included == {} && excluded == {} ==> p == Empty()
    ensures p.included == included && p.excluded == excluded
  {
    if |included| == 0 && |excluded| == 0 then Empty() else RacePredicate(included, excluded)
  }

  /** The two shapes CODEC reads: the full record with both fields, or a bare
      set of races. */
  datatype Encoded<Race(==)> = Full(included: set<Race>, excluded: set<Race>) | Bare(races: set<Race>)

  /** Decoding: the record goes through `of`; the bare set means
      include = set and exclude = {}. */
  function Decode<Race(==)>(e: Encoded<Race>): (p: RacePredicate<Race>)
    ensures e.Bare? ==> p.included == e.races && p.excluded == {}
    ensures e.Full? ==> p.included == e.included && p.excluded == e.excluded
  {
    match e
    case Full(i, x) => Of(i, x)
    case Bare(s) => Of(s, {})
  }

  /** The bare form's encoder, RacePredicate::include: it keeps the include
      set and drops the exclude set. */
  function EncodeBare<Race(==)>(p: RacePredicate<Race>): (s: set<Race>)
    ensures Decode(Bare(s)).included == p.included && Decode(Bare(s)).excluded == {}
  {
    p.included
  }

  /** The bare form round-trips, and a predicate without exclusions is
      restored from its bare encoding; a bare set decodes like the record
      with an empty exclusion set. */
  lemma BareRoundTrip<Race>(s: set<Race>, p: RacePredicate<Race>)
    ensures EncodeBare(Decode(Bare(s))) == s
    ensures p.excluded == {} ==> Decode(Bare(EncodeBare(p))) == p
    ensures Decode(Bare(s)) == Decode(Full(s, {}))
  {
  }
}
