/**
 * `ask_yes_no`: the operator's confirmation gate.  Input is a stream of answer
 * lines; each is trimmed and lower-cased, an empty answer or "n"/"no" declines,
 * "y"/"yes" accepts, and anything else is asked again.
 */
module Confirm {
  import opened Text

  /** How one answer line is read. */
  datatype Answer = Yes | No | Unrecognised

  /** `answer.strip().lower()`. */
  function Normalize(raw: string): string {
    Lower(Strip(raw))
  }

  /** How a normalised answer is read. */
  function Interpret(answer: string): Answer {
    if answer == "" then No
    else if answer == "y" || answer == "yes" then Yes
    else if answer == "n" || answer == "no" then No
    else Unrecognised
  }

  function Classify(raw: string): Answer {
    Interpret(Normalize(raw))
  }

  /** The reading of each line of an answer stream. */
  function Classified(responses: seq<string>): (answers: seq<Answer>)
    ensures |answers| == |responses|
  {
    if responses == [] then [] else [Classify(responses[0])] + Classified(responses[1..])
  }

  lemma {:induction false} ClassifiedAt(responses: seq<string>, i: nat)
    requires i < |responses|
    ensures Classified(responses)[i] == Classify(responses[i])
  {
    if i > 0 {
      ClassifiedAt(responses[1..], i - 1);
    }
  }

  /** Reading the lines after the first `k` is reading all lines and dropping `k` answers. */
  lemma {:induction false} ClassifiedSuffix(responses: seq<string>, k: nat)
    requires k <= |responses|
    ensures Classified(responses[k..]) == Classified(responses)[k..]
  {
    if k > 0 {
      assert responses[k..] == responses[1..][k - 1..];
      ClassifiedSuffix(responses[1..], k - 1);
    }
  }

  /** The outcome of one confirmation: the verdict and how many answer lines it
      read, or the input ran out first (Python's `input()` raises EOFError). */
  datatype Reply = Decided(verdict: bool, used: nat) | EndOfInput

  /**
   * The confirmation decided by a stream of answers, as read: the first
   * recognised answer decides it (see `DecideCharacterized`).
   */
  function Decide(answers: seq<Answer>): (r: Reply)
    ensures r.Decided? ==> 1 <= r.used <= |answers|
  {
    if answers == [] then EndOfInput
    else
      match answers[0]
      case Yes => Decided(true, 1)
      case No => Decided(false, 1)
      case Unrecognised =>
        match Decide(answers[1..])
        case EndOfInput => EndOfInput
        case Decided(verdict, used) => Decided(verdict, used + 1)
  }

  /** The loop of `ask_yes_no`, reading one answer line per iteration. */
  method AskYesNo(responses: seq<string>) returns (reply: Reply)
    ensures reply == Decide(Classified(responses))
  {
    var i := 0;
    while i < |responses|
      invariant 0 <= i <= |responses|
      invariant forall j :: 0 <= j < i ==> Classified(responses)[j] == Unrecognised
    {
      var reading := Classify(responses[i]);
      ClassifiedAt(responses, i);
      if reading != Unrecognised {
        DecideFromFirstAnswer(Classified(responses), i);
        return Decided(reading == Yes, i + 1);
      }
      i := i + 1;
    }
    DecideCharacterized(Classified(responses));
    reply := EndOfInput;
  }

  // ---------------------------------------------------------------------------
  // Properties of the confirmation gate

  /**
   * Decide reads up to and including the first recognised answer: every line
   * before it was unrecognised, the verdict is that answer's, and the input
   * runs out exactly when no line is recognised.
   */
  lemma {:induction false} DecideCharacterized(answers: seq<Answer>)
    ensures Decide(answers).Decided? ==> forall i :: 0 <= i < Decide(answers).used - 1 ==> answers[i] == Unrecognised
    ensures Decide(answers).Decided? ==> answers[Decide(answers).used - 1] == (if Decide(answers).verdict then Yes else No)
    ensures Decide(answers).EndOfInput? <==> forall i :: 0 <= i < |answers| ==> answers[i] == Unrecognised
  {
    if answers != [] && answers[0] == Unrecognised {
      DecideCharacterized(answers[1..]);
      assert forall i :: 1 <= i < |answers| ==> answers[i] == answers[1..][i - 1];
    }
  }

  /** The first recognised answer, at position `k`, decides the confirmation. */
  lemma {:induction false} DecideFromFirstAnswer(answers: seq<Answer>, k: nat)
    requires k < |answers| && answers[k] != Unrecognised
    requires forall i :: 0 <= i < k ==> answers[i] == Unrecognised
    ensures Decide(answers) == Decided(answers[k] == Yes, k + 1)
  {
    if k > 0 {
      DecideFromFirstAnswer(answers[1..], k - 1);
    }
  }

  /** Answers after the deciding one are never read. */
  lemma DecideIgnoresLaterAnswers(answers: seq<Answer>, more: seq<Answer>)
    requires Decide(answers).Decided?
    ensures Decide(answers + more) == Decide(answers)
  {
    DecideCharacterized(answers);
    var k := Decide(answers).used - 1;
    var all := answers + more;
    assert forall i :: 0 <= i <= k ==> all[i] == answers[i];
    DecideFromFirstAnswer(all, k);
  }

  /** Every line is its strip() with whitespace on either side. */
  lemma StripSplit(raw: string) returns (pre: string, post: string)
    ensures AllSpace(pre) && AllSpace(post) && raw == pre + Strip(raw) + post
  {
    var left := StripLeft(raw);
    StripLeftIsSuffix(raw);
    StripRightIsPrefix(left);
    pre := raw[..|raw| - |left|];
    post := left[|Strip(raw)|..];
    assert left == Strip(raw) + post;
    assert raw == pre + left;
  }

  /** A word with no whitespace at either end, read after lower-casing. */
  lemma ReadWord(body: string)
    requires Lower(body) == [] || (!IsSpace(Lower(body)[0]) && !IsSpace(Lower(body)[|body| - 1]))
    ensures Classify(body) == Interpret(Lower(body))
  {
    StripLowerCommute(body);
    StripTrimmed(Lower(body));
  }

  /** A line accepts exactly when it is "y" or "yes", in any letter case, with
      whitespace around it. */
  lemma ClassifyYesIff(raw: string)
    ensures Classify(raw) == Yes <==>
      exists pre, body, post :: AllSpace(pre) && AllSpace(post) && raw == pre + body + post
        && (Lower(body) == "y" || Lower(body) == "yes")
  {
    if Classify(raw) == Yes {
      var pre, post := StripSplit(raw);
      var body := Strip(raw);
      assert AllSpace(pre) && AllSpace(post) && raw == pre + body + post && (Lower(body) == "y" || Lower(body) == "yes");
    }
    if exists pre, body, post :: AllSpace(pre) && AllSpace(post) && raw == pre + body + post
        && (Lower(body) == "y" || Lower(body) == "yes") {
      var pre, body, post :| AllSpace(pre) && AllSpace(post) && raw == pre + body + post
        && (Lower(body) == "y" || Lower(body) == "yes");
      ClassifyIgnoresPadding(pre, body, post);
      ReadWord(body);
    }
  }

  /** A line declines exactly when it is empty, "n" or "no", in any letter case,
      with whitespace around it. */
  lemma ClassifyNoIff(raw: string)
    ensures Classify(raw) == No <==>
      exists pre, body, post :: AllSpace(pre) && AllSpace(post) && raw == pre + body + post
        && (Lower(body) == "" || Lower(body) == "n" || Lower(body) == "no")
  {
    if Classify(raw) == No {
      var pre, post := StripSplit(raw);
      var body := Strip(raw);
      assert AllSpace(pre) && AllSpace(post) && raw == pre + body + post
        && (Lower(body) == "" || Lower(body) == "n" || Lower(body) == "no");
    }
    if exists pre, body, post :: AllSpace(pre) && AllSpace(post) && raw == pre + body + post
        && (Lower(body) == "" || Lower(body) == "n" || Lower(body) == "no") {
      var pre, body, post :| AllSpace(pre) && AllSpace(post) && raw == pre + body + post
        && (Lower(body) == "" || Lower(body) == "n" || Lower(body) == "no");
      ClassifyIgnoresPadding(pre, body, post);
      ReadWord(body);
    }
  }

  /** An empty or whitespace-only answer declines: the default is "no". */
  lemma BlankAnswerDeclines(raw: string)
    requires AllSpace(raw)
    ensures Classify(raw) == No
  {
    StripPadding(raw, "", "");
    assert raw + "" + "" == raw;
  }

  /** Whitespace around an answer does not change how it is read. */
  lemma ClassifyIgnoresPadding(pre: string, raw: string, post: string)
    requires AllSpace(pre) && AllSpace(post)
    ensures Classify(pre + raw + post) == Classify(raw)
  {
    StripPadding(pre, raw, post);
  }

  /** Answers that differ only in letter case are read alike. */
  lemma ClassifyIgnoresCase(raw: string, other: string)
    requires Lower(raw) == Lower(other)
    ensures Classify(raw) == Classify(other)
  {
    StripLowerCommute(raw);
    StripLowerCommute(other);
  }

  /** "YES", in capitals and padded, accepts. */
  lemma CapitalYesAccepts(pre: string, post: string)
    requires AllSpace(pre) && AllSpace(post)
    ensures Classify(pre + "YES" + post) == Yes
  {
    assert Normalize("YES") == "yes" by {
      StripTrimmed("YES");
      assert Lower("YES") == "yes";
    }
    ClassifyIgnoresPadding(pre, "YES", post);
  }

  /** "No", padded, declines. */
  lemma CapitalNoDeclines(pre: string, post: string)
    requires AllSpace(pre) && AllSpace(post)
    ensures Classify(pre + "No" + post) == No
  {
    assert Normalize("No") == "no" by {
      StripTrimmed("No");
      assert Lower("No") == "no";
    }
    ClassifyIgnoresPadding(pre, "No", post);
  }

  /** Any other word is not an answer: the question is asked again. */
  lemma OtherWordReprompts(pre: string, post: string)
    requires AllSpace(pre) && AllSpace(post)
    ensures Classify(pre + "yep" + post) == Unrecognised
  {
    assert Normalize("yep") == "yep" by {
      StripTrimmed("yep");
      assert Lower("yep") == "yep";
    }
    ClassifyIgnoresPadding(pre, "yep", post);
  }
}
