/**
 * deepimagej.RunnerDL: the PyTorch runner. Its tiling and findOutputOffset
 * are the code of RunnerTf (modelled there); what differs is the channel
 * check, which accepts any multiple of the minimum channel count, and the
 * extraction of the "Expected N-dimensional input for M-dimensional
 * weight [...] ... instead" sentence from a PyTorch error message.
 */
module RunnerDL {
  import JavaString
  import IntArith
  import DijTensor
  import RunnerTf

  const SkipText: string := "RuntimeError: "
  const ExpectedWord: string := "Expected "
  const ExpectedText: string := SkipText + ExpectedWord
  const InputText: string := "-dimensional input for "
  const WeightText: string := "-dimensional weight ["
  const InsteadText: string := "instead"

  /** The lengths of the searched texts. */
  lemma TextLengths()
    ensures |SkipText| == 14 && |ExpectedWord| == 9 && |ExpectedText| == 23
    ensures |InputText| == 23 && |WeightText| == 21 && |InsteadText| == 7
  {
  }

  /** "instead" cannot start inside the first two letters of "Expected ". */
  lemma WordFacts()
    ensures InsteadText[0] == 'i' && ExpectedWord[0] == 'E' && ExpectedWord[1] == 'x' && |ExpectedWord| == 9
  {
  }

  /** The characters that tell the two "-dimensional" texts apart from each other and from the expected text. */
  lemma DashFacts()
    ensures InputText[0] == '-' && WeightText[0] == '-' && InputText[13] == 'i' && WeightText[13] == 'w'
    ensures 'x' in ExpectedText && 'x' !in InputText && 'x' !in WeightText && '-' !in InputText[1..]
  {
    assert ExpectedText[15] == 'x';
  }

  /**
   * The guard of dimensionsMismatch: the first "-dimensional input for " sits
   * one character after the first "RuntimeError: Expected ", and the first
   * "-dimensional weight [" one character after that.
   */
  predicate Guard(ex: string)
  {
    JavaString.IndexOf(ex, ExpectedText) + |ExpectedText| + 1 == JavaString.IndexOf(ex, InputText) &&
    JavaString.IndexOf(ex, InputText) + |InputText| + 1 == JavaString.IndexOf(ex, WeightText)
  }

  /** The sentence cut out of the message starting at `from`: up to the last "instead", or six characters when there is none. */
  function Cut(ex: string, from: int): (error: string)
    requires 0 <= from && from + 6 <= |ex|
    ensures |error| >= 6 && JavaString.OccursAt(ex, error, from)
    ensures JavaString.LastIndexOf(ex[from..], InsteadText) == -1 ==> |error| == 6
    ensures JavaString.LastIndexOf(ex[from..], InsteadText) != -1 ==> JavaString.EndsWith(error, InsteadText)
  {
    var rest := ex[from..];
    var last := JavaString.LastIndexOf(rest, InsteadText);
    TextLengths();
    var error := rest[..last + |InsteadText|];
    assert ex[from..from + |error|] == error;
    error
  }

  /**
   * dimensionsMismatch as written: the sentence after "RuntimeError: "
   * whenever the guard holds, "" otherwise. When "RuntimeError: Expected "
   * is absent its position is -1, and the guard still holds for a message
   * whose first "-dimensional input for " starts at position 23.
   */
  function DimensionsMismatch(ex: string): (error: string)
    ensures error != "" <==> Guard(ex)
    ensures error != "" ==> JavaString.OccursAt(ex, error, JavaString.IndexOf(ex, ExpectedText) + |SkipText|)
  {
    TextLengths();
    if Guard(ex) then
      assert JavaString.OccursAt(ex, WeightText, JavaString.IndexOf(ex, WeightText));
      Cut(ex, JavaString.IndexOf(ex, ExpectedText) + |SkipText|)
    else ""
  }

  /**
   * The message dimensionsMismatch is meant to recognise: "RuntimeError:
   * Expected " followed by one character, "-dimensional input for ", one
   * character and "-dimensional weight [", at the first occurrence of each.
   */
  predicate Mismatch(ex: string)
  {
    JavaString.IndexOf(ex, ExpectedText) != -1 && Guard(ex)
  }

  /**
   * dimensionsMismatch with the guard also requiring "RuntimeError:
   * Expected " to be present. The result is then the sentence from
   * "Expected " up to the last "instead", taken from the message itself.
   */
  function DimensionsMismatchIntended(ex: string): (error: string)
    ensures error != "" <==> Mismatch(ex)
    ensures error != "" ==> JavaString.OccursAt(ex, error, JavaString.IndexOf(ex, ExpectedText) + |SkipText|)
    ensures Mismatch(ex) ==> error == DimensionsMismatch(ex)
  {
    if JavaString.IndexOf(ex, ExpectedText) != -1 then DimensionsMismatch(ex) else ""
  }

  /**
   * The intended extraction begins with "Expected " whenever it ends at an
   * "instead": "instead" cannot start at either of the first two characters.
   */
  lemma {:induction false} IntendedStartsWithExpected(ex: string)
    requires Mismatch(ex)
    ensures var error := DimensionsMismatchIntended(ex);
            JavaString.EndsWith(error, InsteadText) ==> JavaString.StartsWith(error, ExpectedWord)
  {
    TextLengths();
    WordFacts();
    var i := JavaString.IndexOf(ex, ExpectedText);
    var from := i + |SkipText|;
    var rest := ex[from..];
    assert rest[..9] == ExpectedWord by {
      assert JavaString.OccursAt(ex, ExpectedText, i);
      assert ex[i..i + 23][14..] == ExpectedText[14..] == ExpectedWord;
    }
    var last := JavaString.LastIndexOf(rest, InsteadText);
    if last != -1 {
      assert rest[last] == 'i' by {
        assert JavaString.OccursAt(rest, InsteadText, last);
        assert rest[last..last + 7][0] == InsteadText[0];
      }
      KeptWord(rest, last);
      assert DimensionsMismatchIntended(ex) == rest[..last + 7];
    }
  }

  /** A text starting with "Expected " keeps that start when cut after an "instead" found in it. */
  lemma KeptWord(rest: string, last: int)
    requires |rest| >= 9 && rest[..9] == ExpectedWord
    requires 0 <= last && last + 7 <= |rest| && rest[last] == 'i'
    ensures JavaString.StartsWith(rest[..last + 7], ExpectedWord)
  {
    WordFacts();
    assert rest[0] == ExpectedWord[0] && rest[1] == ExpectedWord[1];
    assert last >= 2;
    assert rest[..last + 7][..9] == rest[..9];
  }

  /**
   * The guard as written lets through a message without "RuntimeError:
   * Expected ": any 23 characters without '-' or 'x' before
   * "-dimensional input for ", one character, then "-dimensional weight ["
   * give a non-empty result, which the intended guard rejects.
   */
  lemma {:induction false} GuardWithoutPrefix(prefix: string, n: char, tail: string)
    requires |prefix| == 23 && '-' !in prefix && n != '-'
    requires 'x' !in prefix && n != 'x' && 'x' !in tail
    ensures var ex := prefix + InputText + [n] + WeightText + tail;
            !JavaString.Contains(ex, ExpectedText) &&
            DimensionsMismatch(ex) != "" && DimensionsMismatchIntended(ex) == ""
  {
    TextLengths();
    DashFacts();
    var ex := prefix + InputText + [n] + WeightText + tail;
    assert 'x' !in ex;
    JavaString.ContainedChars(ex, ExpectedText);
    assert JavaString.IndexOf(ex, ExpectedText) == -1;
    assert JavaString.OccursAt(ex, InputText, 23) by { assert ex[23..46] == InputText; }
    forall j | 0 <= j < 23
      ensures !JavaString.OccursAt(ex, InputText, j)
    {
      assert ex[j] == prefix[j] != InputText[0];
    }
    JavaString.IndexOfIs(ex, InputText, 23);
    assert JavaString.OccursAt(ex, WeightText, 47) by { assert ex[47..68] == WeightText; }
    forall j | 0 <= j < 47
      ensures !JavaString.OccursAt(ex, WeightText, j)
    {
      if j < 23 {
        assert ex[j] == prefix[j] != WeightText[0];
      } else if j == 23 {
        assert ex[36] == InputText[13] != WeightText[13];
      } else if j < 46 {
        assert ex[j] == InputText[1..][j - 24] != WeightText[0];
      } else {
        assert ex[j] == n != WeightText[0];
      }
    }
    JavaString.IndexOfIs(ex, WeightText, 47);
    assert Guard(ex);
  }

  /** "RuntimeError: Got 12345-dimensional input for 4-dimensional weight [64] instead" is such a message. */
  lemma GuardWithoutPrefixExample()
    ensures DimensionsMismatch("RuntimeError: Got 12345" + InputText + "4" + WeightText + "64] instead") != ""
    ensures DimensionsMismatchIntended("RuntimeError: Got 12345" + InputText + "4" + WeightText + "64] instead") == ""
  {
    GuardWithoutPrefix("RuntimeError: Got 12345", '4', "64] instead");
  }

  /**
   * The channel check of the PyTorch run: the image's channel count must be
   * a multiple of the minimum size at the input's C axis, unless that is -1.
   * Java evaluates the remainder first, so a minimum of 0 throws
   * ArithmeticException; a form without C or a short list throws
   * ArrayIndexOutOfBoundsException.
   */
  function MultipleChannels(channels: nat, form: string, minimumSize: seq<int>): (r: RunnerTf.ChannelVerdict)
    ensures r.OutOfBounds? <==> 'C' !in form || DijTensor.AxisIndex(form, 'C') >= |minimumSize|
    ensures r.DivisionByZero? <==>
              'C' in form && DijTensor.AxisIndex(form, 'C') < |minimumSize| && minimumSize[DijTensor.AxisIndex(form, 'C')] == 0
    ensures r.Accepted? <==>
              'C' in form && DijTensor.AxisIndex(form, 'C') < |minimumSize| &&
              minimumSize[DijTensor.AxisIndex(form, 'C')] != 0 && channels % minimumSize[DijTensor.AxisIndex(form, 'C')] == 0
  {
    var channelPos := DijTensor.AxisIndex(form, 'C');
    if channelPos == -1 || channelPos >= |minimumSize| then RunnerTf.OutOfBounds
    else
      var m := minimumSize[channelPos];
      if m == 0 then RunnerTf.DivisionByZero
      else
        JavaString.RemZero(channels, m);
        if JavaString.JavaRem(channels, m) != 0 && m != -1 then
          RunnerTf.Rejected(RunnerTf.ChannelMessage(m, channels))
        else RunnerTf.Accepted
  }

  /** An image the exact TensorFlow check accepts also passes the PyTorch check on the same list, unless the entry is 0. */
  lemma ExactPassesMultiple(channels: nat, form: string, sizes: seq<int>)
    requires RunnerTf.ExactChannels(channels, form, sizes).Accepted?
    requires sizes[DijTensor.AxisIndex(form, 'C')] != 0
    ensures MultipleChannels(channels, form, sizes).Accepted?
  {
    var m := sizes[DijTensor.AxisIndex(form, 'C')];
    if m == -1 {
      IntArith.DivModUnique(channels, 1, channels, 0);
      JavaString.RemZero(channels, -1);
      assert JavaString.JavaRem(channels, -1) == 0;
    } else {
      IntArith.DivModUnique(channels, if m > 0 then m else -m, 1, 0);
    }
  }

  /** The PyTorch check is the looser one: six channels pass a minimum of three, which the exact check rejects. */
  lemma MultipleIsLooser()
    ensures MultipleChannels(6, "C", [3]).Accepted?
    ensures RunnerTf.ExactChannels(6, "C", [3]).Rejected?
  {
    assert DijTensor.AxisIndex("C", 'C') == 0;
  }
}
