/**
 * The lines of the submission file: the header line of the unlabelled test file with a
 * `label` column added, then each test line with the name of its voted label.
 */
module Submission {
  import opened Wrappers
  import Text
  import Labels

  /** `EMOS[v]`, with Python's negative indexing; `None` where Python raises `IndexError`. */
  function LabelName(v: int): (r: Option<string>)
    ensures r.Some? <==> -|Labels.EMOS| <= v < |Labels.EMOS|
    ensures r.Some? ==> r.value in Labels.EMOS
    ensures 0 <= v < |Labels.EMOS| ==> r == Some(Labels.EMOS[v])
  {
    if 0 <= v < |Labels.EMOS| then Some(Labels.EMOS[v])
    else if -|Labels.EMOS| <= v < 0 then Some(Labels.EMOS[v + |Labels.EMOS|])
    else None
  }

  /** The two `IndexError`s the writer can raise on line `line`. */
  datatype WriteError = NoLabel(line: nat) | NoName(line: nat, vote: int)

  /** The stripped input line, a tab, the extra field and a newline. */
  function Row(text: string, field: string): string
  {
    Text.Strip(text) + "\t" + field + "\n"
  }

  /** The output line for input line `idx` with text `text`, given the voted test labels `mj`. */
  function Line(idx: nat, text: string, mj: seq<int>): Result<string, WriteError>
  {
    if idx == 0 then Success(Row(text, "label"))
    else if idx - 1 >= |mj| then Failure(NoLabel(idx))
    else
      var name := LabelName(mj[idx - 1]);
      if name.None? then Failure(NoName(idx, mj[idx - 1]))
      else Success(Row(text, name.value))
  }

  /** Read one output line back: the text before the last tab, and the field after it. */
  function ParseLine(l: string): Option<(string, string)>
  {
    if l == [] || l[|l| - 1] != '\n' then None
    else LastField(l[..|l| - 1], [])
  }

  /** Split `body + rest` at the last tab of `body`, where `rest` holds no tab. */
  function LastField(body: string, rest: string): Option<(string, string)>
    decreases |body|
  {
    if body == [] then None
    else if body[|body| - 1] == '\t' then Some((body[..|body| - 1], rest))
    else LastField(body[..|body| - 1], [body[|body| - 1]] + rest)
  }

  predicate NoTab(s: string)
  {
    forall i :: 0 <= i < |s| ==> s[i] != '\t'
  }

  lemma {:induction false} LastFieldSplits(front: string, field: string, rest: string)
    requires NoTab(field)
    ensures LastField(front + "\t" + field, rest) == Some((front, field + rest))
    decreases |field|
  {
    var body := front + "\t" + field;
    if field == [] {
      assert body[|body| - 1] == '\t';
      assert body[..|body| - 1] == front;
      assert field + rest == rest;
    } else {
      var last := field[|field| - 1];
      assert body[|body| - 1] == last;
      assert body[..|body| - 1] == front + "\t" + field[..|field| - 1];
      LastFieldSplits(front, field[..|field| - 1], [last] + rest);
      assert field[..|field| - 1] + ([last] + rest) == field + rest;
    }
  }

  /** A line built from a text and a tab-free field reads back as the two. */
  lemma ParseBuilt(text: string, field: string)
    requires NoTab(field)
    ensures ParseLine(Row(text, field)) == Some((Text.Strip(text), field))
  {
    var l := Row(text, field);
    assert l[..|l| - 1] == Text.Strip(text) + "\t" + field;
    LastFieldSplits(Text.Strip(text), field, []);
    assert field + [] == field;
  }

  /** No label name holds a tab. */
  lemma NamesHaveNoTab(name: string)
    requires name in Labels.EMOS || name == "label"
    ensures NoTab(name)
  {
  }

  /**
   * Every written line reads back as the stripped input line and a label field: `label`
   * on the header, and the name of the voted label on every other line.
   */
  lemma LineRoundTrip(idx: nat, text: string, mj: seq<int>)
    requires Line(idx, text, mj).Success?
    ensures idx == 0 ==> ParseLine(Line(idx, text, mj).value) == Some((Text.Strip(text), "label"))
    ensures idx > 0 ==>
      && idx - 1 < |mj| && LabelName(mj[idx - 1]).Some?
      && ParseLine(Line(idx, text, mj).value) == Some((Text.Strip(text), LabelName(mj[idx - 1]).value))
  {
    var name := if idx == 0 then "label" else LabelName(mj[idx - 1]).value;
    NamesHaveNoTab(name);
    ParseBuilt(text, name);
  }

  /** The writer fails exactly when a test line has no voted label or its label has no name. */
  lemma LineFails(idx: nat, text: string, mj: seq<int>)
    ensures Line(idx, text, mj).Failure? <==>
      idx > 0 && (idx - 1 >= |mj| || mj[idx - 1] < -|Labels.EMOS| || mj[idx - 1] >= |Labels.EMOS|)
  {
  }

  /**
   * The loop over the lines of the unlabelled test file: each line is written in turn,
   * and the first line that raises ends the writing, the lines before it written.
   */
  method WriteSubmission(dataLines: seq<string>, mj: seq<int>) returns (written: seq<string>, error: Option<WriteError>)
    ensures |written| <= |dataLines|
    ensures forall i :: 0 <= i < |written| ==> Line(i, dataLines[i], mj) == Success(written[i])
    ensures error.None? <==> |written| == |dataLines|
    ensures error.Some? ==> Line(|written|, dataLines[|written|], mj) == Failure(error.value)
  {
    written := [];
    for idx := 0 to |dataLines|
      invariant |written| == idx
      invariant forall i :: 0 <= i < idx ==> Line(i, dataLines[i], mj) == Success(written[i])
    {
      var text := dataLines[idx];
      var line: string;
      if idx == 0 {
        line := Row(text, "label");
      } else {
        if idx - 1 >= |mj| {
          return written, Some(NoLabel(idx));
        }
        var name := LabelName(mj[idx - 1]);
        if name.None? {
          return written, Some(NoName(idx, mj[idx - 1]));
        }
        line := Row(text, name.value);
      }
      written := written + [line];
    }
    error := None;
  }

  /** With one valid label per test line, every line is written. */
  lemma SubmissionComplete(dataLines: seq<string>, mj: seq<int>)
    requires |dataLines| <= |mj| + 1
    requires forall i :: 0 <= i < |mj| ==> 0 <= mj[i] < |Labels.EMOS|
    ensures forall i :: 0 <= i < |dataLines| ==> Line(i, dataLines[i], mj).Success?
  {
  }
}
