/**
 * The reusable multiple-choice card: the first tapped option is kept, the
 * `onAnswer` callback hears once whether it was right, and every option is
 * then styled as correct, wrong or neutral.
 */
module McqCard {
  import opened Wrappers

  /** The box style of one option row. */
  datatype OptionStyle = Neutral | CorrectStyle | WrongStyle

  /** The text style of one option row. */
  datatype TextStyle = NormalText | EmphasisedText

  /** One option as the caller passes it in. */
  datatype Choice = Choice(id: string, text: string)

  /** `getOptionStyle(id)`, given the card's selection and its correct option. */
  function StyleOf(selected: Option<string>, correctId: string, id: string): (st: OptionStyle)
    ensures selected.None? ==> st == Neutral
    ensures selected.Some? && id == correctId ==> st == CorrectStyle
    ensures st == WrongStyle <==> selected.Some? && id == selected.value && id != correctId
  {
    if selected.None? then Neutral
    else if id == correctId then CorrectStyle
    else if id == selected.value then WrongStyle
    else Neutral
  }

  /** `getOptionTextStyle(id)`. */
  function TextStyleOf(selected: Option<string>, correctId: string, id: string): (ts: TextStyle)
    ensures selected.None? ==> ts == NormalText
    ensures selected.Some? ==> (ts == EmphasisedText <==> id == correctId || id == selected.value)
  {
    if selected.None? then NormalText
    else if id == correctId || id == selected.value then EmphasisedText
    else NormalText
  }

  /** The selection after one more tap on option `id`: the first tap wins. */
  function Tap(selected: Option<string>, id: string): Option<string> {
    if selected.Some? then selected else Some(id)
  }

  /** The selection after a run of taps. */
  function TapAll(selected: Option<string>, ids: seq<string>): Option<string>
    decreases |ids|
  {
    if ids == [] then selected else TapAll(Tap(selected, ids[0]), ids[1..])
  }

  /** The `onAnswer` arguments a run of taps produces. */
  function Answers(selected: Option<string>, correctId: string, ids: seq<string>): seq<bool>
    decreases |ids|
  {
    if ids == [] then []
    else
      var now := if selected.None? then [ids[0] == correctId] else [];
      now + Answers(Tap(selected, ids[0]), correctId, ids[1..])
  }

  /** Once an option is selected, no tap changes the selection. */
  lemma {:induction false} SelectedStays(selected: Option<string>, ids: seq<string>)
    requires selected.Some?
    ensures TapAll(selected, ids) == selected
    decreases |ids|
  {
    if ids != [] {
      SelectedStays(Tap(selected, ids[0]), ids[1..]);
    }
  }

  /** From a fresh card, any run of taps ends with the first tapped option selected. */
  lemma FirstTapWins(ids: seq<string>)
    requires ids != []
    ensures TapAll(None, ids) == Some(ids[0])
  {
    SelectedStays(Some(ids[0]), ids[1..]);
  }

  /** Once selected, further taps report nothing. */
  lemma {:induction false} NoAnswerAfterSelection(selected: Option<string>, correctId: string, ids: seq<string>)
    requires selected.Some?
    ensures Answers(selected, correctId, ids) == []
    decreases |ids|
  {
    if ids != [] {
      NoAnswerAfterSelection(Tap(selected, ids[0]), correctId, ids[1..]);
    }
  }

  /** From a fresh card, `onAnswer` is called exactly once, with whether the first tap was the correct option. */
  lemma AnsweredOnce(correctId: string, ids: seq<string>)
    requires ids != []
    ensures Answers(None, correctId, ids) == [ids[0] == correctId]
  {
    NoAnswerAfterSelection(Some(ids[0]), correctId, ids[1..]);
  }

  /** After a selection at most one option is wrong-styled: it exists exactly when the pick was wrong, and it is the pick. */
  lemma WrongStyleIsThePick(pick: string, correctId: string, options: seq<Choice>)
    ensures (exists k :: 0 <= k < |options| && StyleOf(Some(pick), correctId, options[k].id) == WrongStyle)
      <==> pick != correctId && exists k :: 0 <= k < |options| && options[k].id == pick
    ensures forall k :: (0 <= k < |options| && StyleOf(Some(pick), correctId, options[k].id) == WrongStyle
      ==> options[k].id == pick)
  {
  }

  /** The card as a stateful component: `selectedOption` is its React state, `answers` the `onAnswer` calls made so far. */
  class Card {
    const options: seq<Choice>
    const correctOptionId: string
    var selectedOption: Option<string>
    var answers: seq<bool>

    ghost predicate Valid()
      reads this
    {
      selectedOption != Some("")
      && answers == if selectedOption.None? then [] else [selectedOption.value == correctOptionId]
    }

    constructor (options: seq<Choice>, correctOptionId: string)
      ensures Valid()
      ensures this.options == options && this.correctOptionId == correctOptionId
      ensures selectedOption == None && answers == []
    {
      this.options := options;
      this.correctOptionId := correctOptionId;
      selectedOption := None;
      answers := [];
    }

    /** `handleSelect(id)`; option ids are non-empty (an empty one would be falsy and not block a second tap). */
    method HandleSelect(id: string)
      requires Valid() && id != ""
      modifies this
      ensures Valid()
      ensures selectedOption == Tap(old(selectedOption), id)
      ensures answers == old(answers) + Answers(old(selectedOption), correctOptionId, [id])
    {
      if selectedOption.Some? {
        return;
      }
      selectedOption := Some(id);
      answers := answers + [id == correctOptionId];
    }

    /** The styles of every option row, in order. */
    function Styles(): (rows: seq<(OptionStyle, TextStyle)>)
      reads this
      ensures |rows| == |options|
      ensures forall k :: 0 <= k < |options| ==>
        rows[k] == (StyleOf(selectedOption, correctOptionId, options[k].id),
                    TextStyleOf(selectedOption, correctOptionId, options[k].id))
    {
      seq(|options|, k requires 0 <= k < |options| reads this =>
        (StyleOf(selectedOption, correctOptionId, options[k].id),
         TextStyleOf(selectedOption, correctOptionId, options[k].id)))
    }
  }
}
