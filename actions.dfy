/**
 * The `createPoll` server action: read the form, check it against the poll
 * schema, require a signed-in user, insert the poll and then its options,
 * and delete the poll again when the options cannot be stored.
 */
module Actions {
  import opened Wrappers
  import opened Seqs
  import opened Backend

  /** The submitted form: the value of each field name (`formData.get`). */
  type FormData = map<string, string>

  function Get(form: FormData, name: string): Option<string> {
    if name in form then Some(form[name]) else None
  }

  /** What `extractFormData` hands to the schema. */
  datatype PollInput = PollInput(title: Option<string>, options: seq<string>)

  /** `Boolean(v)` for a form value: neither `null` nor the empty string. */
  predicate Truthy(v: Option<string>) {
    v.Some? && v.value != ""
  }

  /** What one option slot contributes to the option list. */
  function Kept(v: Option<string>): seq<string> {
    if Truthy(v) then [v.value] else []
  }

  /** The strings inside a list of present values. */
  function Unwrap(vs: seq<Option<string>>): (r: seq<string>)
    requires forall i :: 0 <= i < |vs| ==> vs[i].Some?
    ensures |r| == |vs| && forall i :: 0 <= i < |vs| ==> r[i] == vs[i].value
  {
    seq(|vs|, i requires 0 <= i < |vs| => vs[i].value)
  }

  /** The title field and the first four option slots, null and empty slots dropped. */
  function ExtractFormData(form: FormData): (input: PollInput)
    ensures input.title == Get(form, "title")
    ensures |input.options| <= 4
    ensures forall i :: 0 <= i < |input.options| ==> input.options[i] != ""
    ensures input.options ==
      Kept(Get(form, "option1")) + Kept(Get(form, "option2")) + Kept(Get(form, "option3")) + Kept(Get(form, "option4"))
  {
    var slots := [Get(form, "option1"), Get(form, "option2"), Get(form, "option3"), Get(form, "option4")];
    var kept := Filter(slots, Truthy);
    SlotsFilter(slots);
    PollInput(Get(form, "title"), Unwrap(kept))
  }

  /** Filtering four slots keeps each truthy one in place. */
  lemma SlotsFilter(slots: seq<Option<string>>)
    requires |slots| == 4
    ensures forall i :: 0 <= i < |Filter(slots, Truthy)| ==> Filter(slots, Truthy)[i].Some?
    ensures Unwrap(Filter(slots, Truthy)) == Kept(slots[0]) + Kept(slots[1]) + Kept(slots[2]) + Kept(slots[3])
  {
    var a, b, c, d := [slots[0]], [slots[1]], [slots[2]], [slots[3]];
    assert slots == a + b + c + d;
    FilterAppend(a + b + c, d, Truthy);
    FilterAppend(a + b, c, Truthy);
    FilterAppend(a, b, Truthy);
    SlotFilter(slots[0]);
    SlotFilter(slots[1]);
    SlotFilter(slots[2]);
    SlotFilter(slots[3]);
    UnwrapAppend(Filter(a, Truthy) + Filter(b, Truthy) + Filter(c, Truthy), Filter(d, Truthy));
    UnwrapAppend(Filter(a, Truthy) + Filter(b, Truthy), Filter(c, Truthy));
    UnwrapAppend(Filter(a, Truthy), Filter(b, Truthy));
  }

  lemma SlotFilter(v: Option<string>)
    ensures forall i :: 0 <= i < |Filter([v], Truthy)| ==> Filter([v], Truthy)[i].Some?
    ensures Unwrap(Filter([v], Truthy)) == Kept(v)
  {
    assert [v][1..] == [];
  }

  lemma UnwrapAppend(xs: seq<Option<string>>, ys: seq<Option<string>>)
    requires forall i :: 0 <= i < |xs| ==> xs[i].Some?
    requires forall i :: 0 <= i < |ys| ==> ys[i].Some?
    ensures Unwrap(xs + ys) == Unwrap(xs) + Unwrap(ys)
  {
  }

  /** Only the title and the first four option slots are read: forms that agree on them extract alike. */
  lemma ExtractReadsOnlyFiveFields(form: FormData, other: FormData)
    requires forall name :: name in {"title", "option1", "option2", "option3", "option4"} ==> Get(form, name) == Get(other, name)
    ensures ExtractFormData(form) == ExtractFormData(other)
  {
  }

  // Messages of the poll schema.
  const TITLE_REQUIRED := "Title is required"
  const OPTION_EMPTY := "Option cannot be empty"
  const TOO_FEW_OPTIONS := "At least two options are required"
  /** The schema library's message for a field that is `null` instead of a string. */
  const EXPECTED_STRING := "Expected string, received null"

  /** The validated poll. */
  datatype PollData = PollData(title: string, options: seq<string>)

  /** The per-field messages of a rejected input. */
  datatype FieldErrors = FieldErrors(title: seq<string>, options: seq<string>)

  predicate TitleOk(title: Option<string>) {
    title.Some? && |title.value| >= 1
  }

  predicate OptionsOk(options: seq<string>) {
    |options| >= 2 && forall i :: 0 <= i < |options| ==> |options[i]| >= 1
  }

  function TitleErrors(title: Option<string>): (r: seq<string>)
    ensures r == [] <==> TitleOk(title)
  {
    match title
    case None => [EXPECTED_STRING]
    case Some(t) => if |t| < 1 then [TITLE_REQUIRED] else []
  }

  /** One message per empty option, in order. */
  function EmptyOptionErrors(options: seq<string>): (r: seq<string>)
    ensures r == [] <==> forall i :: 0 <= i < |options| ==> |options[i]| >= 1
    ensures forall i :: 0 <= i < |r| ==> r[i] == OPTION_EMPTY
    ensures |r| == |Filter(options, (o: string) => |o| < 1)|
    decreases |options|
  {
    if options == [] then []
    else
      var rest := EmptyOptionErrors(options[1..]);
      assert forall i :: 1 <= i < |options| ==> options[i] == options[1..][i - 1];
      (if |options[0]| < 1 then [OPTION_EMPTY] else []) + rest
  }

  /** The array-length message first, then the element messages. */
  function OptionErrors(options: seq<string>): (r: seq<string>)
    ensures r == [] <==> OptionsOk(options)
    ensures TOO_FEW_OPTIONS in r <==> |options| < 2
  {
    (if |options| < 2 then [TOO_FEW_OPTIONS] else []) + EmptyOptionErrors(options)
  }

  /** `PollSchema.safeParse`, with the field errors flattened. */
  function ValidatePoll(input: PollInput): (r: Result<PollData, FieldErrors>)
    ensures r.Success? <==> TitleOk(input.title) && OptionsOk(input.options)
    ensures r.Success? ==> r.value == PollData(input.title.value, input.options)
    ensures r.Failure? ==> (r.error.title != [] <==> !TitleOk(input.title))
    ensures r.Failure? ==> (r.error.options != [] <==> !OptionsOk(input.options))
  {
    var titleErrors := TitleErrors(input.title);
    var optionErrors := OptionErrors(input.options);
    if titleErrors == [] && optionErrors == [] then Success(PollData(input.title.value, input.options))
    else Failure(FieldErrors(titleErrors, optionErrors))
  }

  /** On the form path the only possible option message is the length one: empty slots were already dropped. */
  lemma ExtractedOptionsAreNonEmpty(form: FormData)
    ensures OPTION_EMPTY !in OptionErrors(ExtractFormData(form).options)
    ensures OptionsOk(ExtractFormData(form).options) <==> |ExtractFormData(form).options| >= 2
  {
    var opts := ExtractFormData(form).options;
    assert forall i :: 0 <= i < |opts| ==> |opts[i]| >= 1;
    assert EmptyOptionErrors(opts) == [];
    assert TOO_FEW_OPTIONS != OPTION_EMPTY;
  }

  /** Options are not trimmed here: a whitespace-only option is accepted. */
  lemma WhitespaceOptionAccepted()
    ensures ValidatePoll(PollInput(Some("Q"), [" ", "A"])) == Success(PollData("Q", [" ", "A"]))
  {
  }

  /** An empty title with one option is reported on both fields. */
  lemma EmptyTitleOneOption()
    ensures ValidatePoll(ExtractFormData(map["title" := "", "option1" := "Option 1"]))
         == Failure(FieldErrors([TITLE_REQUIRED], [TOO_FEW_OPTIONS]))
  {
    var form := map["title" := "", "option1" := "Option 1"];
    assert Get(form, "title") == Some("");
    assert Get(form, "option1") == Some("Option 1");
    assert Get(form, "option2") == None && Get(form, "option3") == None && Get(form, "option4") == None;
    var input := ExtractFormData(form);
    assert input.options == ["Option 1"];
    assert TitleErrors(input.title) == [TITLE_REQUIRED];
    assert EmptyOptionErrors(["Option 1"]) == [];
    assert OptionErrors(input.options) == [TOO_FEW_OPTIONS];
  }

  /** The rows `insertPollOptions` sends: one per option, in order, all naming the poll. */
  function OptionRows(options: seq<string>, pollId: PollId): (rows: seq<NewOption>)
    ensures |rows| == |options|
    ensures forall k :: 0 <= k < |rows| ==> rows[k].text == options[k] && rows[k].pollId == pollId
  {
    seq(|options|, k requires 0 <= k < |options| => NewOption(options[k], pollId))
  }

  /** After a bulk insert of rows that all name poll `id`, that poll has at least those rows. */
  lemma NewOptionsBelongToPoll(db: Db, rows: seq<NewOption>, id: PollId)
    requires Valid(db)
    requires forall k :: 0 <= k < |rows| ==> rows[k].pollId == id
    ensures |OptionsOf(InsertOptions(db, rows), id)| >= |rows|
  {
    var keyed := Keyed(rows, db.nextId);
    var isOwn := (o: PollOption) => o.pollId == id;
    FilterAppend(db.options, keyed, isOwn);
    FilterAllPass(keyed, isOwn);
  }

  // Messages of the action.
  const AUTH_REQUIRED := "You must be logged in to create a poll."
  const POLL_INSERT_FAILED := "Error creating poll."
  const OPTIONS_INSERT_FAILED := "Error creating poll options."
  const CREATED := "Poll created successfully!"

  /** What `createPoll` returns. */
  datatype CreateResult =
    | Invalid(fields: FieldErrors)
    | AuthError(auth: seq<string>)
    | DatabaseError(database: seq<string>)
    | Created(message: string)

  /**
   * The writes once the input is valid and `userId` is signed in: the poll
   * row, then its option rows in one request, and the compensating delete of
   * the poll when that request fails.  `pollInserted`, `optionsInserted` and
   * `pollRemoved` say whether each request succeeds.
   */
  ghost predicate StoreSteps(data: PollData, userId: string, db: Db,
                             pollInserted: bool, optionsInserted: bool, pollRemoved: bool,
                             result: CreateResult, db': Db, calls: seq<Call>): (ok: bool)
    ensures ok ==> |calls| >= 1 && calls[0] == InsertPollRow(data.title, userId)
    ensures ok ==> (result.Created? <==> pollInserted && optionsInserted)
    ensures ok && !result.Created? ==> result.DatabaseError?
    ensures ok ==> (|calls| > 1 <==> pollInserted)
  {
    var poll := Poll(db.nextId, data.title, userId);
    var rows := OptionRows(data.options, poll.id);
    var asked := [InsertPollRow(data.title, userId)];
    && (!pollInserted ==> result == DatabaseError([POLL_INSERT_FAILED]) && calls == asked && db' == db)
    && (pollInserted && !optionsInserted ==>
          && result == DatabaseError([OPTIONS_INSERT_FAILED])
          && calls == asked + [InsertOptionRows(rows), DeletePollRow(poll.id)]
          && db'.options == db.options && db'.votes == db.votes
          && (pollRemoved ==> db'.polls == db.polls && !HasPoll(db', poll.id))
          && (!pollRemoved ==> db'.polls == db.polls + {poll}))
    && (pollInserted && optionsInserted ==>
          && result == Created(CREATED)
          && calls == asked + [InsertOptionRows(rows), RevalidatePath("/polls")]
          && db'.polls == db.polls + {poll} && !HasPoll(db, poll.id)
          && db'.options == db.options + Keyed(rows, db.nextId + 1)
          && db'.votes == db.votes)
  }

  /** The part of `createPoll` after the checks. */
  method StorePoll(data: PollData, userId: string, db: Db,
                   pollInserted: bool, optionsInserted: bool, pollRemoved: bool)
    returns (result: CreateResult, db': Db, calls: seq<Call>)
    requires Valid(db) && |data.options| >= 2
    ensures Valid(db')
    ensures StoreSteps(data, userId, db, pollInserted, optionsInserted, pollRemoved, result, db', calls)
    // No orphans: a poll left behind by a successful run has its options, and every new option row has its poll.
    ensures result.Created? ==> forall p :: p in db'.polls && p !in db.polls ==> |OptionsOf(db', p.id)| >= 2
    ensures forall i :: |db.options| <= i < |db'.options| ==> HasPoll(db', db'.options[i].pollId)
  {
    calls := [InsertPollRow(data.title, userId)];
    if !pollInserted {
      return DatabaseError([POLL_INSERT_FAILED]), db, calls;
    }
    var inserted := InsertPoll(db, data.title, userId);
    var poll, withPoll := inserted.0, inserted.1;

    var rows := OptionRows(data.options, poll.id);
    calls := calls + [InsertOptionRows(rows)];
    if !optionsInserted {
      calls := calls + [DeletePollRow(poll.id)];
      db' := if pollRemoved then DeletePoll(withPoll, poll.id) else withPoll;
      if pollRemoved {
        assert db'.polls == db.polls;
      }
      return DatabaseError([OPTIONS_INSERT_FAILED]), db', calls;
    }
    db' := InsertOptions(withPoll, rows);
    NewOptionsBelongToPoll(withPoll, rows, poll.id);
    calls := calls + [RevalidatePath("/polls")];
    result := Created(CREATED);
  }

  /**
   * `createPoll`.  `session` is the id of the signed-in user, if any; the
   * three flags are those of `StoreSteps`.
   */
  method CreatePoll(form: FormData, db: Db, session: Option<string>,
                    pollInserted: bool, optionsInserted: bool, pollRemoved: bool)
    returns (result: CreateResult, db': Db, calls: seq<Call>)
    requires Valid(db)
    ensures Valid(db')
    // Validation comes first: a rejected form causes no request at all.
    ensures result.Invalid? <==> ValidatePoll(ExtractFormData(form)).Failure?
    ensures result.Invalid? ==> result.fields == ValidatePoll(ExtractFormData(form)).error && calls == [] && db' == db
    // No user: only the identity lookup happened.
    ensures result.AuthError? <==> ValidatePoll(ExtractFormData(form)).Success? && session.None?
    ensures result.AuthError? ==> result.auth == [AUTH_REQUIRED] && calls == [GetUser] && db' == db
    // Otherwise the identity lookup, then the writes.
    ensures !result.Invalid? && !result.AuthError? ==>
      && |calls| >= 1 && calls[0] == GetUser
      && StoreSteps(ValidatePoll(ExtractFormData(form)).value, session.value, db,
                    pollInserted, optionsInserted, pollRemoved, result, db', calls[1..])
    ensures result.Created? ==> forall p :: p in db'.polls && p !in db.polls ==> |OptionsOf(db', p.id)| >= 2
    ensures forall i :: |db.options| <= i < |db'.options| ==> HasPoll(db', db'.options[i].pollId)
  {
    var parsed := ValidatePoll(ExtractFormData(form));
    if parsed.Failure? {
      return Invalid(parsed.error), db, [];
    }
    if session.None? {
      return AuthError([AUTH_REQUIRED]), db, [GetUser];
    }
    var written;
    result, db', written := StorePoll(parsed.value, session.value, db, pollInserted, optionsInserted, pollRemoved);
    calls := [GetUser] + written;
  }
}
