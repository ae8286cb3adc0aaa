/** The reusable poll form: title, description and option entries, for creating or editing a poll. */
module PollFormComponent {
  import opened Wrappers
  import opened OptionList

  class PollForm {
    var title: string
    var description: string
    var options: seq<string>

    /** The fields of `initialData` when editing, otherwise empty text and two blank entries. */
    constructor (initialData: Option<PollDraft>)
      ensures initialData.None? ==> title == "" && description == "" && options == INITIAL_OPTIONS
      ensures initialData.Some? ==>
        title == initialData.value.title && description == initialData.value.description
        && options == initialData.value.options
    {
      match initialData
      case None =>
        title, description, options := "", "", INITIAL_OPTIONS;
      case Some(data) =>
        title, description, options := data.title, data.description, data.options;
    }

    method SetTitle(value: string)
      modifies this`title
      ensures title == value
    {
      title := value;
    }

    method SetDescription(value: string)
      modifies this`description
      ensures description == value
    {
      description := value;
    }

    /** Appends a blank entry. */
    method AddOption()
      modifies this`options
      ensures options == AddedBlank(old(options))
      ensures |old(options)| >= MIN_OPTIONS ==> |options| >= MIN_OPTIONS
    {
      options := options + [""];
    }

    /** Removes entry `index`, unless only two entries are left. */
    method RemoveOption(index: nat)
      requires index < |options|
      modifies this`options
      ensures options == RemovedAt(old(options), index)
      ensures |old(options)| >= MIN_OPTIONS ==> |options| >= MIN_OPTIONS
    {
      if |options| <= 2 {
        return;
      }
      var newOptions := options;
      newOptions := newOptions[..index] + newOptions[index + 1..];
      options := newOptions;
    }

    /** Sets entry `index` to `value`. */
    method UpdateOption(index: nat, value: string)
      requires index < |options|
      modifies this`options
      ensures options == ReplacedAt(old(options), index, value)
      ensures |old(options)| >= MIN_OPTIONS ==> |options| >= MIN_OPTIONS
    {
      var newOptions := options;
      newOptions := newOptions[index := value];
      options := newOptions;
    }

    /**
     * `handleSubmit`: the draft passed to `onSubmit`, or `None` when fewer
     * than two entries are non-blank (the user is alerted instead).  The form
     * itself is left as it is.
     */
    method HandleSubmit() returns (submitted: Option<PollDraft>)
      ensures submitted.Some? <==> |ValidOptions(options)| >= MIN_OPTIONS
      ensures submitted.Some? ==> submitted.value.title == title && submitted.value.description == description
      ensures submitted.Some? ==> submitted.value.options == ValidOptions(options)
    {
      var validOptions := ValidOptions(options);
      if |validOptions| < 2 {
        return None;
      }
      submitted := Some(PollDraft(title, description, validOptions));
    }
  }
}
