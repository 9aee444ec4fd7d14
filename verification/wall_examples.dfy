/** The wall-segment title quoted in the parser's documentation, read by the model. */
module WallExamples {

  import opened Results
  import opened PyStr
  import opened Numbers
  import opened Wall

  /** The title line of the example: the fixed words with the padded
      numbers of segment 3 from K,L = 1,2 to 5,6 between them. */
  const EXAMPLE_TITLE := "Power and fields on wall " + SEGMENT_WORD + "   3" + KL_MARK
                         + "    1" + COMMA + "   2 " + TO_WORD + "    5" + COMMA + "   6"

  lemma TitleExample(num: Conversions)
    requires num.floatOf("3") == Some(3.0)
    requires num.intOf("1") == Some(1) && num.intOf("2") == Some(2)
    requires num.intOf("5") == Some(5) && num.intOf("6") == Some(6)
    ensures ParseWallTitle(num, EXAMPLE_TITLE) == Ok(WallTitle(3, 1, 2, 5, 6))
  {
    ExampleNumbers(num);
    ExampleChars();
    TitleRoundTrip(num, "Power and fields on wall ", "   3", "    1", "   2 ", "    5", "   6", 3.0, 1, 2, 5, 6);
    ExampleLine();
  }

  lemma ExampleLine()
    ensures EXAMPLE_TITLE == TitleLine("Power and fields on wall ", "   3", "    1", "   2 ", "    5", "   6")
  {
  }

  /** The padded number tokens of the example convert to their numbers. */
  lemma ExampleNumbers(num: Conversions)
    requires num.floatOf("3") == Some(3.0)
    requires num.intOf("1") == Some(1) && num.intOf("2") == Some(2)
    requires num.intOf("5") == Some(5) && num.intOf("6") == Some(6)
    ensures ToFloat(num, "   3") == Ok(3.0)
    ensures ToInt(num, "    1") == Ok(1) && ToInt(num, "   2 ") == Ok(2)
    ensures ToInt(num, "    5") == Ok(5) && ToInt(num, "   6") == Ok(6)
  {
    StripSegment();
    StripKBeg();
    StripLBeg();
    StripKEnd();
    StripLEnd();
  }

  lemma StripSegment()
    ensures Strip("   3") == "3"
  {
    PaddedDigit("   3", "   ", '3', "");
  }

  lemma StripKBeg()
    ensures Strip("    1") == "1"
  {
    PaddedDigit("    1", "    ", '1', "");
  }

  lemma StripLBeg()
    ensures Strip("   2 ") == "2"
  {
    PaddedDigit("   2 ", "   ", '2', " ");
  }

  lemma StripKEnd()
    ensures Strip("    5") == "5"
  {
    PaddedDigit("    5", "    ", '5', "");
  }

  lemma StripLEnd()
    ensures Strip("   6") == "6"
  {
    PaddedDigit("   6", "   ", '6', "");
  }

  /** A digit padded with spaces strips to the digit. */
  lemma PaddedDigit(s: string, a: string, d: char, b: string)
    requires s == a + [d] + b && '0' <= d <= '9'
    requires forall i :: 0 <= i < |a| ==> a[i] == ' '
    requires b == "" || b == " "
    ensures Strip(s) == [d]
  {
    assert All(b, IsSpace) by {
      if b == " " {
        assert b[0] == ' ';
      }
    }
    StripPadded(a, [d], b);
  }

  lemma ExampleChars()
    ensures 't' !in "Power and fields on wall "
    ensures 'g' !in "   3" && 'g' !in "    1" && 'g' !in "   2 " && 'g' !in "    5" && 'g' !in "   6"
    ensures '=' !in "   3" && '=' !in "    1" && '=' !in "   2 " && '=' !in "    5" && '=' !in "   6"
    ensures 'o' !in "    1" && 'o' !in "   2 " && 'o' !in "    5" && 'o' !in "   6"
    ensures ',' !in "    1" && ',' !in "   2 " && ',' !in "    5" && ',' !in "   6"
  {
  }
}
