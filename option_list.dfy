/**
 * The list of option entries the poll editors keep while a poll is being
 * written, the edits they offer on it, and the filter applied on submit.
 */
module OptionList {
  import opened Seqs
  import opened JsString

  /** The fewest entries the editors let the list shrink to. */
  const MIN_OPTIONS := 2

  /** The entries a fresh editor starts with. */
  const INITIAL_OPTIONS: seq<string> := ["", ""]

  /** What an editor hands on when it is submitted. */
  datatype PollDraft = PollDraft(title: string, description: string, options: seq<string>)

  /** `[...options, '']`. */
  function AddedBlank(options: seq<string>): (r: seq<string>)
    ensures |r| == |options| + 1
    ensures forall j :: 0 <= j < |options| ==> r[j] == options[j]
    ensures r[|options|] == ""
  {
    options + [""]
  }

  /** The list after removing entry `index`, unless only the minimum is left. */
  function RemovedAt(options: seq<string>, index: nat): (r: seq<string>)
    requires index < |options|
    ensures |options| <= MIN_OPTIONS ==> r == options
    ensures |options| > MIN_OPTIONS ==> |r| == |options| - 1
    ensures |options| > MIN_OPTIONS ==> forall j :: 0 <= j < index ==> r[j] == options[j]
    ensures |options| > MIN_OPTIONS ==> forall j :: index <= j < |r| ==> r[j] == options[j + 1]
  {
    if |options| <= MIN_OPTIONS then options
    else options[..index] + options[index + 1..]
  }

  /** The list with entry `index` set to `value`. */
  function ReplacedAt(options: seq<string>, index: nat, value: string): (r: seq<string>)
    requires index < |options|
    ensures |r| == |options| && r[index] == value
    ensures forall j :: 0 <= j < |r| && j != index ==> r[j] == options[j]
  {
    options[index := value]
  }

  /** None of the edits takes a list that has the minimum below it. */
  lemma EditsKeepMinimum(options: seq<string>, index: nat, value: string)
    requires |options| >= MIN_OPTIONS && index < |options|
    ensures |AddedBlank(options)| >= MIN_OPTIONS
    ensures |RemovedAt(options, index)| >= MIN_OPTIONS
    ensures |ReplacedAt(options, index, value)| >= MIN_OPTIONS
  {
  }

  predicate NotBlank(option: string) {
    !IsBlank(option)
  }

  /** `options.filter(option => option.trim() !== '')`. */
  function ValidOptions(options: seq<string>): (r: seq<string>)
    ensures |r| <= |options|
    ensures forall i :: 0 <= i < |r| ==> r[i] in options && !AllWhitespace(r[i])
    ensures forall i :: 0 <= i < |options| && !AllWhitespace(options[i]) ==> options[i] in r
  {
    var r := Filter(options, NotBlank);
    forall s: string {
      BlankIffAllWhitespace(s);
    }
    r
  }

  /** The filter works entry by entry, so it keeps the order of the entries it keeps. */
  lemma ValidOptionsAppend(front: seq<string>, back: seq<string>)
    ensures ValidOptions(front + back) == ValidOptions(front) + ValidOptions(back)
  {
    FilterAppend(front, back, NotBlank);
  }

  /** Submitting an already filtered list filters nothing more. */
  lemma ValidOptionsIdempotent(options: seq<string>)
    ensures ValidOptions(ValidOptions(options)) == ValidOptions(options)
  {
    FilterIdempotent(options, NotBlank);
  }

  /** A single entry survives the filter exactly when it has a non-whitespace character. */
  lemma ValidOptionsSingle(option: string)
    ensures ValidOptions([option]) == if AllWhitespace(option) then [] else [option]
  {
    BlankIffAllWhitespace(option);
    assert [option][1..] == [];
  }

  /** A blank or whitespace-only entry anywhere in the list is dropped without disturbing the others. */
  lemma ValidOptionsDropsBlank(front: seq<string>, blank: string, back: seq<string>)
    requires AllWhitespace(blank)
    ensures ValidOptions(front + [blank] + back) == ValidOptions(front) + ValidOptions(back)
  {
    BlankIffAllWhitespace(blank);
    FilterSkips(front, blank, back, NotBlank);
  }

  /** A list whose entries all have text is submitted as it is. */
  lemma ValidOptionsKeepsText(options: seq<string>)
    requires forall i :: 0 <= i < |options| ==> !AllWhitespace(options[i])
    ensures ValidOptions(options) == options
  {
    forall i | 0 <= i < |options| ensures NotBlank(options[i]) {
      BlankIffAllWhitespace(options[i]);
    }
    FilterAllPass(options, NotBlank);
  }
}
