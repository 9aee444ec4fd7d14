/** A summary line quoted in the parser's comments, read by the model. */
module SummaryExamples {

  import opened Results
  import opened PyStr
  import opened Numbers
  import opened Summary

  // The quality-factor line of the example, piece by piece.
  const PAD := "  "
  const Q_KEY := "Q    "
  const Q_VALUE := "0.334933E+10"
  const Q_TAIL := "      Shunt impedance "
  const Z_VALUE := "2001715.397"
  const Z_TAIL := " MOhm/m"
  const Q_FIELD := PAD + Q_VALUE + Q_TAIL
  const Z_FIELD := PAD + Z_VALUE + Z_TAIL
  const Q_EXAMPLE := Q_KEY + "=" + Q_FIELD + "=" + Z_FIELD

  /** The quality-factor line of a report (the line is a parameter so that
      it is reasoned about symbolically rather than evaluated). */
  lemma QExample(num: Conversions, line: string)
    requires line == Q_EXAMPLE
    requires num.floatOf(Q_VALUE) == Some(3349330000.0)
    requires num.floatOf(Z_VALUE) == Some(2001715.397)
    ensures ParseSummaryLine(num, line)
         == Ok(Quantities(map["Q" := 3349330000.0, "Shunt impedance" := 2001715.397],
                          map["Q" := "", "Shunt impedance" := "MOhm/m"]))
  {
    QExamplePieces();
    QExampleWords();
    PaddedWord(Q_FIELD, PAD, Q_VALUE, Q_TAIL);
    PaddedWord(Z_FIELD, PAD, Z_VALUE, Z_TAIL);
    QPairLine(num, Q_KEY, Q_FIELD, Z_FIELD, Q_VALUE, Z_VALUE, 3349330000.0, 2001715.397);
    assert Two("Q", 3349330000.0, "", "Shunt impedance", 2001715.397, "MOhm/m")
        == Quantities(map["Q" := 3349330000.0, "Shunt impedance" := 2001715.397],
                      map["Q" := "", "Shunt impedance" := "MOhm/m"]);
  }

  /** Any line that starts with `Q `, has exactly two `=` and a word at the
      head of each field reads as the quality factor and the shunt
      impedance. */
  lemma QPairLine(num: Conversions, p: string, x1: string, x2: string, w1: string, w2: string, v1: real, v2: real)
    requires StartsWith(p, "Q ") && '=' !in p && '=' !in x1 && '=' !in x2
    requires FirstWord(x1) == w1 && FirstWord(x2) == w2 && Strip(w1) == w1 && Strip(w2) == w2
    requires num.floatOf(w1) == Some(v1) && num.floatOf(w2) == Some(v2)
    ensures ParseSummaryLine(num, p + "=" + x1 + "=" + x2) == Ok(Two("Q", v1, "", "Shunt impedance", v2, "MOhm/m"))
  {
    var line := p + "=" + x1 + "=" + x2;
    QLineKind(p, x1, x2);
    QLineReadsPair(num, line);
    FloatOfWord(num, w1, v1);
    FloatOfWord(num, w2, v2);
    PairFields(num, p, x1, x2, w1, w2, "Q", "", "Shunt impedance", "MOhm/m", v1, v2);
  }

  lemma QLineKind(p: string, x1: string, x2: string)
    requires StartsWith(p, "Q ")
    ensures KindOf(p + "=" + x1 + "=" + x2) == QLine
  {
    var line := p + "=" + x1 + "=" + x2;
    assert line[..2] == p[..2];
    KindOfPrefix(line, QLine);
  }

  lemma QLineReadsPair(num: Conversions, line: string)
    requires KindOf(line) == QLine
    ensures ParseSummaryLine(num, line) == ReadPair(num, line, "Q", "", "Shunt impedance", "MOhm/m")
  {
  }

  lemma FloatOfWord(num: Conversions, w: string, v: real)
    requires Strip(w) == w && num.floatOf(w) == Some(v)
    ensures ToFloat(num, w) == Ok(v)
  {
  }

  /** The key starts with `Q ` and no piece holds an `=`. */
  lemma QExamplePieces()
    ensures StartsWith(Q_KEY, "Q ") && '=' !in Q_KEY && '=' !in Q_FIELD && '=' !in Z_FIELD
  {
    assert Q_KEY[..2] == "Q ";
  }

  /** The padding is blank, both values are words, and a space follows each. */
  lemma QExampleWords()
    ensures All(PAD, IsSpace) && IsWord(Q_VALUE) && IsWord(Z_VALUE)
    ensures Q_TAIL[0] == ' ' && Z_TAIL[0] == ' '
  {
  }

  /** A literal field: padding, a word, then a space or nothing. */
  lemma PaddedWord(x: string, a: string, w: string, t: string)
    requires x == a + w + t
    requires All(a, IsSpace) && IsWord(w) && (t == [] || t[0] == ' ')
    ensures FirstWord(x) == w && Strip(w) == w
  {
    FirstWordOf(a, w, t);
    WordStripped(w);
  }
}
