/** Tallies that keep the first vote of each voter and are emptied now and then, over a history of events. */
module Tallies {

  datatype Event<X> = Vote(from: nat, vote: X) | Reset | Other

  /** The tally after each event: a vote counts if it is its voter's first since the last reset. */
  ghost predicate Tallied<X>(events: seq<Event<X>>, tallies: seq<map<nat, X>>) {
    && |tallies| == |events| + 1 && tallies[0] == map[]
    && forall k: nat :: k < |events| ==> TalliedAt(events, tallies, k)
  }

  ghost predicate TalliedAt<X>(events: seq<Event<X>>, tallies: seq<map<nat, X>>, k: nat)
    requires k < |events| && |tallies| == |events| + 1
  {
    match events[k]
    case Vote(q, x) =>
      && (q in tallies[k] ==> tallies[k + 1] == tallies[k])
      && (q !in tallies[k] ==> tallies[k + 1] == tallies[k][q := x])
    case Reset => tallies[k + 1] == map[]
    case Other => tallies[k + 1] == tallies[k]
  }

  ghost predicate NoReset<X>(events: seq<Event<X>>, k: nat, i: nat) {
    forall j :: k <= j < i && j < |events| ==> !events[j].Reset?
  }

  ghost predicate VotesAt<X>(events: seq<Event<X>>, k: nat, q: nat) {
    k < |events| && events[k].Vote? && events[k].from == q
  }

  /** Of the votes of q since the last reset before time i, event k is the first. */
  ghost predicate FirstVote<X>(events: seq<Event<X>>, k: nat, i: nat, q: nat) {
    && k < i <= |events| && VotesAt(events, k, q) && NoReset(events, k, i)
    && forall j: nat :: j < k && NoReset(events, j, i) ==> !VotesAt(events, j, q)
  }

  lemma NoResetMore<X>(events: seq<Event<X>>, k: nat, i: nat)
    requires k <= i < |events|
    ensures NoReset(events, k, i + 1) <==> NoReset(events, k, i) && !events[i].Reset?
  {
  }

  lemma FirstVoteStays<X>(events: seq<Event<X>>, k: nat, i: nat, q: nat)
    requires i < |events| && !events[i].Reset? && FirstVote(events, k, i, q)
    ensures FirstVote(events, k, i + 1, q)
  {
    NoResetMore(events, k, i);
    forall j: nat | j < k && NoReset(events, j, i + 1)
      ensures !VotesAt(events, j, q)
    {
      NoResetMore(events, j, i);
    }
  }

  lemma NewVoteIsFirst<X>(events: seq<Event<X>>, tallies: seq<map<nat, X>>, i: nat, q: nat)
    requires i < |events| && VotesAt(events, i, q) && Tallied(events, tallies) && q !in tallies[i]
    ensures FirstVote(events, i, i + 1, q)
  {
    forall j: nat | j < i && NoReset(events, j, i + 1)
      ensures !VotesAt(events, j, q)
    {
      if VotesAt(events, j, q) {
        NoResetMore(events, j, i);
        VoterIsIn(events, tallies, j, i, q);
      }
    }
  }

  /** Who has voted since the last reset is in the tally. */
  lemma {:induction false} VoterIsIn<X>(events: seq<Event<X>>, tallies: seq<map<nat, X>>, j: nat, i: nat, q: nat)
    requires j < i <= |events| && Tallied(events, tallies) && VotesAt(events, j, q) && NoReset(events, j, i)
    ensures q in tallies[i]
  {
    assert TalliedAt(events, tallies, i - 1);
    if j < i - 1 {
      NoResetMore(events, j, i - 1);
      VoterIsIn(events, tallies, j, i - 1, q);
    }
  }

  lemma {:induction false} InTally<X>(events: seq<Event<X>>, tallies: seq<map<nat, X>>, i: nat, q: nat) returns (k: nat)
    requires i <= |events| && Tallied(events, tallies) && q in tallies[i]
    ensures FirstVote(events, k, i, q) && tallies[i][q] == events[k].vote
  {
    assert TalliedAt(events, tallies, i - 1);
    if q in tallies[i - 1] {
      k := InTally(events, tallies, i - 1, q);
      FirstVoteStays(events, k, i - 1, q);
    } else {
      k := i - 1;
      NewVoteIsFirst(events, tallies, k, q);
    }
  }

  /** A voter is in the tally exactly when it has voted since the last reset, with the first vote it cast since. */
  lemma FirstVotesExactly<X>(events: seq<Event<X>>, tallies: seq<map<nat, X>>, i: nat, q: nat)
    requires i <= |events| && Tallied(events, tallies)
    ensures q in tallies[i] <==> exists k: nat :: FirstVote(events, k, i, q)
    ensures forall k: nat :: FirstVote(events, k, i, q) ==> q in tallies[i] && tallies[i][q] == events[k].vote
  {
    if q in tallies[i] {
      var k := InTally(events, tallies, i, q);
    }
    forall k: nat | FirstVote(events, k, i, q)
      ensures q in tallies[i] && tallies[i][q] == events[k].vote
    {
      VoterIsIn(events, tallies, k, i, q);
      var first := InTally(events, tallies, i, q);
      assert first == k;
    }
  }
}
