/**
 * The list of all polls: loading it, showing Edit and Delete to a poll's
 * owner, and deleting a poll together with its options and their votes.
 */
module PollsPage {
  import opened Wrappers
  import opened Seqs
  import opened Backend
  import opened AuthContext

  /** Edit and Delete are offered only to the signed-in user who created the poll. */
  predicate ShowsOwnerControls(user: Option<User>, poll: Poll): (shown: bool)
    ensures user.None? ==> !shown
    ensures shown ==> user.value.id == poll.userId
  {
    user.Some? && user.value.id == poll.userId
  }

  /** A poll created by `creator` offers Edit and Delete to exactly the viewers signed in with the creator's id. */
  lemma CreatorSeesControls(db: Db, question: string, creator: User, viewer: Option<User>)
    requires Valid(db)
    ensures var poll := InsertPoll(db, question, creator.id).0;
      ShowsOwnerControls(viewer, poll) <==> viewer.Some? && viewer.value.id == creator.id
  {
  }

  /** Signed out, no poll offers the controls; signed in through the mocked login, exactly the polls of user "1" do. */
  lemma OwnerControlsFollowSignIn(email: string, poll: Poll)
    ensures !ShowsOwnerControls(None, poll)
    ensures ShowsOwnerControls(Some(User(MOCK_USER_ID, MOCK_USER_NAME, email)), poll) <==> poll.userId == "1"
  {
  }

  /** The local list without the entries whose id is `pollId`, the rest in their order. */
  function WithoutPoll(polls: seq<Poll>, pollId: PollId): (r: seq<Poll>)
    ensures |r| <= |polls|
    ensures forall i :: 0 <= i < |r| ==> r[i].id != pollId && r[i] in polls
    ensures forall i :: 0 <= i < |polls| && polls[i].id != pollId ==> polls[i] in r
  {
    Filter(polls, (p: Poll) => p.id != pollId)
  }

  /** Pruning works entry by entry, so the order of the remaining polls is kept. */
  lemma WithoutPollAppend(front: seq<Poll>, back: seq<Poll>, pollId: PollId)
    ensures WithoutPoll(front + back, pollId) == WithoutPoll(front, pollId) + WithoutPoll(back, pollId)
  {
    FilterAppend(front, back, (p: Poll) => p.id != pollId);
  }

  /** The first step: the votes on the poll's options go, when it has any options. */
  function VotesCleared(db: Db, pollId: PollId): (r: Db)
    ensures r.polls == db.polls && r.options == db.options
    ensures forall v :: v in r.votes <==>
      v in db.votes && forall o :: o in db.options && o.pollId == pollId ==> o.id != v.optionId
  {
    var ids := OptionIdsOf(db, pollId);
    if |ids| > 0 then DeleteVotes(db, ids) else db
  }

  /** The store after all three deletes succeed. */
  function Cascade(db: Db, pollId: PollId): (r: Db)
    ensures forall p :: p in r.polls <==> p in db.polls && p.id != pollId
    ensures forall o :: o in r.options <==> o in db.options && o.pollId != pollId
    ensures forall v :: v in r.votes <==>
      v in db.votes && forall o :: o in db.options && o.pollId == pollId ==> o.id != v.optionId
  {
    DeletePoll(DeleteOptionsOf(VotesCleared(db, pollId), pollId), pollId)
  }

  /** Every option belongs to an existing poll and every vote to an existing option. */
  ghost predicate Integrity(db: Db) {
    (forall o :: o in db.options ==> HasPoll(db, o.pollId))
    && (forall v :: v in db.votes ==> exists o :: o in db.options && o.id == v.optionId)
  }

  /** After the votes and options are gone (whatever happens to the poll), nothing refers to the poll's options. */
  lemma OptionsAndVotesGone(db: Db, pollId: PollId)
    ensures var after := DeleteOptionsOf(VotesCleared(db, pollId), pollId);
      && OptionsOf(after, pollId) == []
      && (forall v :: v in after.votes ==> forall o :: o in db.options && o.pollId == pollId ==> v.optionId != o.id)
      && (forall o :: o in db.options && o.pollId != pollId ==> o in after.options)
      && (forall v :: v in db.votes && (forall o :: o in db.options && o.id == v.optionId ==> o.pollId != pollId) ==> v in after.votes)
      && after.polls == db.polls
  {
    var after := DeleteOptionsOf(VotesCleared(db, pollId), pollId);
    FilterNonePass(after.options, (o: PollOption) => o.pollId == pollId);
  }

  /** The whole cascade removes the poll, its options and their votes, and only those. */
  lemma CascadeRemovesPoll(db: Db, pollId: PollId)
    ensures !HasPoll(Cascade(db, pollId), pollId) && OptionsOf(Cascade(db, pollId), pollId) == []
    ensures forall p :: p in db.polls && p.id != pollId ==> p in Cascade(db, pollId).polls
    ensures forall o :: o in db.options && o.pollId != pollId ==> o in Cascade(db, pollId).options
    ensures forall v :: v in Cascade(db, pollId).votes ==> forall o :: o in db.options && o.pollId == pollId ==> v.optionId != o.id
    ensures forall v :: v in db.votes && (forall o :: o in db.options && o.id == v.optionId ==> o.pollId != pollId) ==>
      v in Cascade(db, pollId).votes
  {
    OptionsAndVotesGone(db, pollId);
  }

  /** Deleting in the order votes, options, poll never leaves a dangling reference, even when a later step fails. */
  lemma CascadeKeepsIntegrity(db: Db, pollId: PollId)
    requires Integrity(db)
    ensures Integrity(VotesCleared(db, pollId))
    ensures Integrity(DeleteOptionsOf(VotesCleared(db, pollId), pollId))
    ensures Integrity(Cascade(db, pollId))
  {
    var ids := OptionIdsOf(db, pollId);
    var cleared := VotesCleared(db, pollId);
    var noOptions := DeleteOptionsOf(cleared, pollId);
    var done := Cascade(db, pollId);
    OptionsAndVotesGone(db, pollId);
    forall v | v in noOptions.votes
      ensures exists o :: o in noOptions.options && o.id == v.optionId
    {
      var o :| o in db.options && o.id == v.optionId;
      assert o.pollId != pollId;
      assert o in noOptions.options;
    }
    forall o | o in done.options
      ensures HasPoll(done, o.pollId)
    {
      var p :| p in db.polls && p.id == o.pollId;
      assert p in done.polls;
    }
  }

  class PollsView {
    var polls: seq<Poll>
    var loading: bool

    constructor ()
      ensures polls == [] && loading
    {
      polls, loading := [], true;
    }

    /** The mount effect: `fetched` is the query's rows, or `None` when it failed and the list is kept. */
    method FetchPolls(fetched: Option<seq<Poll>>)
      modifies this
      ensures !loading
      ensures polls == if fetched.Some? then fetched.value else old(polls)
    {
      loading := true;
      if fetched.Some? {
        polls := fetched.value;
      }
      loading := false;
    }

    /**
     * `handleDelete`.  `confirmed` is the answer to the confirmation dialog;
     * `selected`, `votesDeleted`, `optionsDeleted` and `pollDeleted` say
     * whether each request succeeds.  The first failure ends the run, nothing
     * already deleted is restored, and the local list changes only when the
     * poll itself was deleted.
     */
    method HandleDelete(pollId: PollId, confirmed: bool, db: Db,
                        selected: bool, votesDeleted: bool, optionsDeleted: bool, pollDeleted: bool)
      returns (db': Db, calls: seq<Call>)
      modifies this`polls
      ensures var ids := OptionIdsOf(db, pollId);
        var voteCalls := if |ids| > 0 then [DeleteVotesFor(ids)] else [];
        var votesGone := |ids| == 0 || votesDeleted;
        && (!confirmed ==> calls == [] && db' == db)
        && (confirmed && !selected ==> calls == [SelectOptionIds(pollId)] && db' == db)
        && (confirmed && selected && !votesGone ==> calls == [SelectOptionIds(pollId)] + voteCalls && db' == db)
        && (confirmed && selected && votesGone && !optionsDeleted ==>
              calls == [SelectOptionIds(pollId)] + voteCalls + [DeleteOptionRows(pollId)]
              && db' == VotesCleared(db, pollId))
        && (confirmed && selected && votesGone && optionsDeleted ==>
              calls == [SelectOptionIds(pollId)] + voteCalls + [DeleteOptionRows(pollId), DeletePollRow(pollId)])
        && (confirmed && selected && votesGone && optionsDeleted && !pollDeleted ==>
              db' == DeleteOptionsOf(VotesCleared(db, pollId), pollId))
        && (confirmed && selected && votesGone && optionsDeleted && pollDeleted ==> db' == Cascade(db, pollId))
      ensures polls == if confirmed && selected && (|OptionIdsOf(db, pollId)| == 0 || votesDeleted) && optionsDeleted && pollDeleted
                       then WithoutPoll(old(polls), pollId) else old(polls)
    {
      db', calls := db, [];
      if !confirmed {
        return;
      }
      calls := [SelectOptionIds(pollId)];
      if !selected {
        return;
      }
      var optionIds := OptionIdsOf(db, pollId);
      var voteCalls := if |optionIds| > 0 then [DeleteVotesFor(optionIds)] else [];
      if |optionIds| > 0 {
        calls := calls + voteCalls;
        if !votesDeleted {
          return;
        }
      }
      var cleared := VotesCleared(db, pollId);
      db' := cleared;

      calls := [SelectOptionIds(pollId)] + voteCalls + [DeleteOptionRows(pollId)];
      if !optionsDeleted {
        return;
      }
      var noOptions := DeleteOptionsOf(cleared, pollId);
      db' := noOptions;

      calls := [SelectOptionIds(pollId)] + voteCalls + [DeleteOptionRows(pollId), DeletePollRow(pollId)];
      if !pollDeleted {
        return;
      }
      db' := DeletePoll(noOptions, pollId);
      polls := WithoutPoll(polls, pollId);
    }
  }
}
