/** The create-poll page: its own copy of the option editor, which clears itself after a submit. */
module CreatePage {
  import opened Wrappers
  import opened OptionList

  class CreatePollPage {
    var title: string
    var description: string
    var options: seq<string>

    /** The page always shows at least two entries. */
    predicate Valid()
      reads this
    {
      |options| >= MIN_OPTIONS
    }

    constructor ()
      ensures Valid()
      ensures title == "" && description == "" && options == INITIAL_OPTIONS
    {
      title, description, options := "", "", INITIAL_OPTIONS;
    }

    method SetTitle(value: string)
      modifies this`title
      ensures title == value
    {
      title := value;
    }

    method SetDescription(value: string)
      modifies this`description
      ensures description == value
    {
      description := value;
    }

    /** Appends a blank entry. */
    method AddOption()
      requires Valid()
      modifies this`options
      ensures Valid() && options == AddedBlank(old(options))
    {
      options := options + [""];
    }

    /** Removes entry `index`, unless only two entries are left. */
    method RemoveOption(index: nat)
      requires Valid() && index < |options|
      modifies this`options
      ensures Valid() && options == RemovedAt(old(options), index)
    {
      if |options| <= 2 {
        return;
      }
      var newOptions := options;
      newOptions := newOptions[..index] + newOptions[index + 1..];
      options := newOptions;
    }

    /** Sets entry `index` to `value`. */
    method UpdateOption(index: nat, value: string)
      requires Valid() && index < |options|
      modifies this`options
      ensures Valid() && options == ReplacedAt(old(options), index, value)
    {
      var newOptions := options;
      newOptions := newOptions[index := value];
      options := newOptions;
    }

    /**
     * `handleSubmit`: with fewer than two non-blank entries nothing changes
     * and `None` is returned (the user is alerted); otherwise the poll that
     * would be created is returned and the page is cleared.
     */
    method HandleSubmit() returns (created: Option<PollDraft>)
      requires Valid()
      modifies this
      ensures Valid()
      ensures created.Some? <==> |ValidOptions(old(options))| >= MIN_OPTIONS
      ensures created.None? ==>
        title == old(title) && description == old(description) && options == old(options)
      ensures created.Some? ==>
        created.value == PollDraft(old(title), old(description), ValidOptions(old(options)))
        && title == "" && description == "" && options == INITIAL_OPTIONS
    {
      var validOptions := ValidOptions(options);
      if |validOptions| < 2 {
        return None;
      }
      created := Some(PollDraft(title, description, validOptions));
      title := "";
      description := "";
      options := INITIAL_OPTIONS;
    }
  }
}
