/**
 * The decision `renderFooter` makes under an answer: nothing at all when
 * there are no suggestions and the answer is not exportable; otherwise one
 * button per suggestion, in order, followed by an export button when the
 * answer is exportable.
 */
module Footer {
  import opened Options

  datatype Button = Suggestion(caption: string) | Export

  /** The suggestions as the script iterates them: an absent list has none. */
  function Listed(suggestions: Option<seq<string>>): seq<string> {
    if suggestions.Some? then suggestions.value else []
  }

  /** One suggestion button per label, in order. */
  function SuggestionButtons(labels: seq<string>): (r: seq<Button>)
    ensures |r| == |labels|
    ensures forall k :: 0 <= k < |r| ==> r[k] == Suggestion(labels[k])
  {
    seq(|labels|, k requires 0 <= k < |labels| => Suggestion(labels[k]))
  }

  /** The labels of the suggestion buttons of a footer, in order. */
  function Labels(buttons: seq<Button>): seq<string> {
    if buttons == [] then []
    else (if buttons[0].Suggestion? then [buttons[0].caption] else []) + Labels(buttons[1..])
  }

  lemma {:induction false} LabelsAppend(xs: seq<Button>, ys: seq<Button>)
    ensures Labels(xs + ys) == Labels(xs) + Labels(ys)
  {
    if xs != [] {
      assert (xs + ys)[0] == xs[0];
      assert (xs + ys)[1..] == xs[1..] + ys;
      LabelsAppend(xs[1..], ys);
    } else {
      assert xs + ys == ys;
    }
  }

  lemma {:induction false} LabelsOfSuggestions(labels: seq<string>)
    ensures Labels(SuggestionButtons(labels)) == labels
  {
    if labels != [] {
      var r := SuggestionButtons(labels);
      assert r[1..] == SuggestionButtons(labels[1..]);
      LabelsOfSuggestions(labels[1..]);
      assert labels == [labels[0]] + labels[1..];
    }
  }

  /** `renderFooter`: `None` when nothing is rendered, else the buttons in
      the order they are appended. */
  function Render(suggestions: Option<seq<string>>, exportable: bool): (r: Option<seq<Button>>)
    ensures r.None? <==> Listed(suggestions) == [] && !exportable
    ensures r.Some? ==> Labels(r.value) == Listed(suggestions)
    ensures r.Some? ==> (Export in r.value <==> exportable)
    ensures r.Some? && exportable ==> r.value[|r.value| - 1] == Export
    ensures r.Some? ==> |r.value| == |Listed(suggestions)| + (if exportable then 1 else 0)
  {
    var labels := Listed(suggestions);
    if labels == [] && !exportable then None
    else
      var tail := if exportable then [Export] else [];
      LabelsOfSuggestions(labels);
      LabelsAppend(SuggestionButtons(labels), tail);
      Some(SuggestionButtons(labels) + tail)
  }
}
