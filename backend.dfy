/**
 * The hosted relational store (tables `polls`, `poll_options`, `votes`) as a
 * value, and the calls a workflow makes to it and to the framework.  Every
 * request either takes full effect or, when the service reports an error,
 * none at all; which one happens is decided by the caller of the model.
 */
module Backend {
  import opened Seqs

  type PollId = nat
  type OptionId = nat

  /** A row of `polls`. */
  datatype Poll = Poll(id: PollId, question: string, userId: string)

  /** A row of `poll_options`. */
  datatype PollOption = PollOption(id: OptionId, text: string, pollId: PollId)

  /** A row of `votes`. */
  datatype Vote = Vote(id: nat, optionId: OptionId, userId: string, pollId: PollId)

  /** A `poll_options` row as the client sends it; the store assigns the id. */
  datatype NewOption = NewOption(text: string, pollId: PollId)

  /** The contents of the store; `nextId` is its key generator. */
  datatype Db = Db(polls: set<Poll>, options: seq<PollOption>, votes: seq<Vote>, nextId: nat)

  /** A request to the hosted service or the framework, recorded in the order it is issued. */
  datatype Call =
    | GetUser
    | InsertPollRow(question: string, userId: string)
    | InsertOptionRows(rows: seq<NewOption>)
    | DeletePollRow(id: PollId)
    | SelectOptionIds(pollId: PollId)
    | DeleteVotesFor(optionIds: seq<OptionId>)
    | DeleteOptionRows(pollId: PollId)
    | RevalidatePath(path: string)

  /** No two option rows share a key. */
  ghost predicate DistinctOptionIds(options: seq<PollOption>) {
    forall i, j :: 0 <= i < j < |options| ==> options[i].id != options[j].id
  }

  /** What the store guarantees by itself: the keys of polls and of options are unique and below the key generator. */
  ghost predicate Valid(db: Db) {
    (forall p :: p in db.polls ==> p.id < db.nextId)
    && (forall p, q :: p in db.polls && q in db.polls && p.id == q.id ==> p == q)
    && (forall i :: 0 <= i < |db.options| ==> db.options[i].id < db.nextId)
    && DistinctOptionIds(db.options)
  }

  /** Deleting rows never makes two remaining rows share a key. */
  lemma {:induction false} FilterKeepsDistinctIds(options: seq<PollOption>, keep: PollOption -> bool)
    ensures DistinctOptionIds(options) ==> DistinctOptionIds(Filter(options, keep))
    decreases |options|
  {
    if options != [] && DistinctOptionIds(options) {
      var rest := options[1..];
      assert DistinctOptionIds(rest) by {
        forall i, j | 0 <= i < j < |rest| ensures rest[i].id != rest[j].id {
          assert rest[i] == options[i + 1] && rest[j] == options[j + 1];
        }
      }
      FilterKeepsDistinctIds(rest, keep);
      var tail := Filter(rest, keep);
      forall k | 0 <= k < |tail| ensures tail[k].id != options[0].id {
        var m :| 0 <= m < |rest| && rest[m] == tail[k];
        assert rest[m] == options[m + 1];
      }
    }
  }

  /** A poll with the given id exists. */
  predicate HasPoll(db: Db, id: PollId) {
    exists p :: p in db.polls && p.id == id
  }

  /** The option rows of poll `id`, in table order. */
  function OptionsOf(db: Db, id: PollId): seq<PollOption> {
    Filter(db.options, (o: PollOption) => o.pollId == id)
  }

  /** `insert({question, user_id}).select().single()`: the new row takes the next key. */
  function InsertPoll(db: Db, question: string, userId: string): (r: (Poll, Db))
    requires Valid(db)
    ensures r.0 == Poll(db.nextId, question, userId)
    ensures !HasPoll(db, r.0.id)
    ensures r.1.polls == db.polls + {r.0} && Valid(r.1)
    ensures r.1.options == db.options && r.1.votes == db.votes
  {
    var p := Poll(db.nextId, question, userId);
    (p, db.(polls := db.polls + {p}, nextId := db.nextId + 1))
  }

  /** The rows a bulk insert stores: each sent row with a fresh key, in the order sent. */
  function Keyed(rows: seq<NewOption>, first: nat): (r: seq<PollOption>)
    ensures |r| == |rows|
    ensures forall k :: 0 <= k < |r| ==>
      r[k].id == first + k && r[k].text == rows[k].text && r[k].pollId == rows[k].pollId
  {
    seq(|rows|, k requires 0 <= k < |rows| => PollOption(first + k, rows[k].text, rows[k].pollId))
  }

  /** `from('poll_options').insert(rows)`: one request, all rows or none. */
  function InsertOptions(db: Db, rows: seq<NewOption>): (r: Db)
    requires Valid(db)
    ensures r.options == db.options + Keyed(rows, db.nextId) && Valid(r)
    ensures r.polls == db.polls && r.votes == db.votes
  {
    db.(options := db.options + Keyed(rows, db.nextId), nextId := db.nextId + |rows|)
  }

  /** `from('polls').delete()` matching `id`. */
  function DeletePoll(db: Db, id: PollId): (r: Db)
    ensures !HasPoll(r, id)
    ensures forall p :: p in db.polls && p.id != id ==> p in r.polls
    ensures r.polls <= db.polls && r.options == db.options && r.votes == db.votes
    ensures Valid(db) ==> Valid(r)
  {
    db.(polls := set p | p in db.polls && p.id != id)
  }

  /** `from('poll_options').select('id').eq('poll_id', id)`. */
  function OptionIdsOf(db: Db, id: PollId): (ids: seq<OptionId>)
    ensures forall o :: o in db.options && o.pollId == id ==> o.id in ids
    ensures forall x :: x in ids ==> exists o :: o in db.options && o.pollId == id && o.id == x
  {
    var own := OptionsOf(db, id);
    var ids := seq(|own|, k requires 0 <= k < |own| => own[k].id);
    assert forall k :: 0 <= k < |own| ==> own[k] in db.options && own[k].pollId == id && ids[k] == own[k].id;
    ids
  }

  /** `from('votes').delete().in('option_id', ids)`. */
  function DeleteVotes(db: Db, ids: seq<OptionId>): (r: Db)
    ensures forall v :: v in r.votes <==> v in db.votes && v.optionId !in ids
    ensures r.polls == db.polls && r.options == db.options && r.nextId == db.nextId
  {
    db.(votes := Filter(db.votes, (v: Vote) => v.optionId !in ids))
  }

  /** `from('poll_options').delete().eq('poll_id', id)`. */
  function DeleteOptionsOf(db: Db, id: PollId): (r: Db)
    ensures forall o :: o in r.options <==> o in db.options && o.pollId != id
    ensures r.polls == db.polls && r.votes == db.votes && r.nextId == db.nextId
    ensures Valid(db) ==> Valid(r)
  {
    FilterKeepsDistinctIds(db.options, (o: PollOption) => o.pollId != id);
    db.(options := Filter(db.options, (o: PollOption) => o.pollId != id))
  }
}
