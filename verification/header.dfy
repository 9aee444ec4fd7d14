/** The header group of an SFO report (`parse_header_lines`,
    `parse_header_variable`).

    Lines before the variable table's title line are free-text comments. Every
    line after the title describes one problem variable:
    `key [A] value description...`, where the `A` marks a variable set in the
    Automesh input.
 */
module Header {

  import opened Results
  import opened PyStr
  import opened Numbers

  const TITLE := "Variable Code         Value     Description"
  const AUTOMESH_MARK := "A"

  datatype Variable = Variable(key: string, value: Number, description: string, inAutomesh: bool)

  /** The three dictionaries of a parsed header, all keyed by variable name. */
  datatype Tables = Tables(variable: map<string, Number>, description: map<string, string>, inAutomesh: map<string, bool>)

  datatype HeaderDoc = HeaderDoc(tables: Tables, comments: string)

  const NO_TABLES := Tables(map[], map[], map[])

  /** The three dictionaries describe the same variables. */
  predicate Consistent(t: Tables)
  {
    t.variable.Keys == t.description.Keys && t.description.Keys == t.inAutomesh.Keys
  }

  /** `parse_header_variable`: the whitespace-separated tokens are the key,
      an optional Automesh mark, the value and the description words. */
  function ParseHeaderVariable(num: Conversions, line: string): (r: Result<Variable>)
    ensures |SplitWs(line)| < 2 ==> r == Err(IndexError)
    ensures r.Ok? ==> r.value.key == SplitWs(line)[0]
    ensures r.Ok? ==> (r.value.inAutomesh <==> SplitWs(line)[1] == AUTOMESH_MARK)
  {
    ParseTokens(num, SplitWs(line))
  }

  /** The variable read from the tokens of its line. */
  function ParseTokens(num: Conversions, x: seq<string>): (r: Result<Variable>)
    ensures |x| < 2 ==> r == Err(IndexError)
    ensures r.Ok? ==> r.value.key == x[0] && (r.value.inAutomesh <==> x[1] == AUTOMESH_MARK)
  {
    var key :- Index(x, 0);
    var second :- Index(x, 1);
    var automesh := second == AUTOMESH_MARK;
    var at := if automesh then 2 else 1;
    var token :- Index(x, at);
    var value :- IntElseFloat(num, token);
    Ok(Variable(key, value, Join(" ", Drop(x, at + 1)), automesh))
  }

  /** A header variable line written with single spaces. */
  function FormatVariable(key: string, token: string, inAutomesh: bool, words: seq<string>): string
    requires !inAutomesh ==> token != AUTOMESH_MARK
  {
    Join(" ", Tokens(key, token, inAutomesh, words))
  }

  lemma MarkIsWord()
    ensures IsWord(AUTOMESH_MARK)
  {
    assert !IsSpace(AUTOMESH_MARK[0]);
  }

  lemma FormatWords(key: string, token: string, inAutomesh: bool, words: seq<string>)
    requires IsWord(key) && IsWord(token)
    requires forall i :: 0 <= i < |words| ==> IsWord(words[i])
    requires !inAutomesh ==> token != AUTOMESH_MARK
    ensures SplitWs(FormatVariable(key, token, inAutomesh, words)) == Tokens(key, token, inAutomesh, words)
  {
    MarkIsWord();
    var ws := Tokens(key, token, inAutomesh, words);
    assert forall i :: 0 <= i < |ws| ==> IsWord(ws[i]);
    SplitWsJoin(ws);
  }

  /** Reading back a variable line gives its key, value, mark and the
      description words joined by single spaces. A value token that is
      itself `A` would be read as the mark, so it is excluded without one. */
  lemma VariableRoundTrip(num: Conversions, key: string, token: string, inAutomesh: bool, words: seq<string>, value: Number)
    requires IsWord(key) && IsWord(token)
    requires forall i :: 0 <= i < |words| ==> IsWord(words[i])
    requires !inAutomesh ==> token != AUTOMESH_MARK
    requires IntElseFloat(num, token) == Ok(value)
    ensures ParseHeaderVariable(num, FormatVariable(key, token, inAutomesh, words))
         == Ok(Variable(key, value, Join(" ", words), inAutomesh))
  {
    var ws := Tokens(key, token, inAutomesh, words);
    var at := if inAutomesh then 2 else 1;
    TokensRead(num, ws, at, value);
    FormatWords(key, token, inAutomesh, words);
  }

  /** The tokens of a variable line. */
  function Tokens(key: string, token: string, inAutomesh: bool, words: seq<string>): (ws: seq<string>)
    requires !inAutomesh ==> token != AUTOMESH_MARK
    ensures |ws| >= 2 && ws[0] == key && (ws[1] == AUTOMESH_MARK <==> inAutomesh)
    ensures var at := if inAutomesh then 2 else 1;
      at < |ws| && ws[at] == token && Drop(ws, at + 1) == words
  {
    if inAutomesh then [key, AUTOMESH_MARK, token] + words else [key, token] + words
  }

  lemma TokensRead(num: Conversions, x: seq<string>, at: nat, value: Number)
    requires |x| >= 2 && at == (if x[1] == AUTOMESH_MARK then 2 else 1) && at < |x|
    requires IntElseFloat(num, x[at]) == Ok(value)
    ensures ParseTokens(num, x) == Ok(Variable(x[0], value, Join(" ", Drop(x, at + 1)), x[1] == AUTOMESH_MARK))
  {
  }

  // ---------------------------------------------------------------------
  // The loop of `parse_header_lines`.

  function Record(t: Tables, v: Variable): (r: Tables)
    ensures Consistent(t) ==> Consistent(r)
  {
    Tables(t.variable[v.key := v.value], t.description[v.key := v.description], t.inAutomesh[v.key := v.inAutomesh])
  }

  /** The loop from a state: whether the title has been seen, the
      dictionaries so far and the comment lines so far. */
  function ScanHeader(num: Conversions, lines: seq<string>, inTable: bool, t: Tables, comments: seq<string>): (r: Result<(Tables, seq<string>)>)
    ensures Consistent(t) && r.Ok? ==> Consistent(r.value.0)
    decreases |lines|
  {
    if lines == [] then Ok((t, comments))
    else if lines[0] == TITLE then ScanHeader(num, lines[1..], true, t, comments)
    else if !inTable then ScanHeader(num, lines[1..], false, t, comments + [lines[0]])
    else
      var v :- ParseHeaderVariable(num, lines[0]);
      ScanHeader(num, lines[1..], true, Record(t, v), comments)
  }

  /** `parse_header_lines` on the body lines of the header group. */
  function ParseHeaderLines(num: Conversions, lines: seq<string>): (r: Result<HeaderDoc>)
    ensures r.Ok? ==> Consistent(r.value.tables)
  {
    var scanned :- ScanHeader(num, lines, false, NO_TABLES, []);
    Ok(HeaderDoc(scanned.0, Join("\n", scanned.1)))
  }

  // ---------------------------------------------------------------------
  // A declarative reading: split at the first title line, then parse.

  /** The index of the first title line, if any. */
  function TitleAt(lines: seq<string>): (r: Option<nat>)
    ensures r.Some? ==> r.value < |lines| && lines[r.value] == TITLE
    ensures r.Some? ==> TITLE !in lines[..r.value]
    ensures r.None? ==> TITLE !in lines
  {
    if lines == [] then None
    else if lines[0] == TITLE then Some(0)
    else match TitleAt(lines[1..])
      case None => None
      case Some(k) =>
        assert lines[..k + 1] == [lines[0]] + lines[1..][..k];
        Some(k + 1)
  }

  /** The comment lines: everything before the first title line. */
  function CommentLines(lines: seq<string>): seq<string>
  {
    match TitleAt(lines)
    case None => lines
    case Some(k) => lines[..k]
  }

  /** The variable lines: everything after the first title line except
      further title lines. */
  function VariableLines(lines: seq<string>): seq<string>
  {
    match TitleAt(lines)
    case None => []
    case Some(k) => WithoutTitles(lines[k + 1..])
  }

  function WithoutTitles(lines: seq<string>): (r: seq<string>)
    ensures TITLE !in r
  {
    if lines == [] then []
    else (if lines[0] == TITLE then [] else [lines[0]]) + WithoutTitles(lines[1..])
  }

  /** Parses every line, stopping at the first failure. */
  function ParseAll(num: Conversions, lines: seq<string>): (r: Result<seq<Variable>>)
    ensures r.Ok? ==> |r.value| == |lines|
  {
    MapAll(line => ParseHeaderVariable(num, line), lines)
  }

  /** Records the variables in order, later ones overwriting earlier ones. */
  function CollectFrom(t: Tables, vs: seq<Variable>): Tables
    decreases |vs|
  {
    if vs == [] then t else CollectFrom(Record(t, vs[0]), vs[1..])
  }

  /** The header read declaratively. */
  function ReadHeader(num: Conversions, lines: seq<string>): Result<HeaderDoc>
  {
    var vs :- ParseAll(num, VariableLines(lines));
    Ok(HeaderDoc(CollectFrom(NO_TABLES, vs), Join("\n", CommentLines(lines))))
  }

  lemma {:induction false} ScanTable(num: Conversions, lines: seq<string>, t: Tables, comments: seq<string>)
    ensures ScanHeader(num, lines, true, t, comments)
         == (var vs :- ParseAll(num, WithoutTitles(lines)); Ok((CollectFrom(t, vs), comments)))
    decreases |lines|
  {
    if lines != [] {
      var rest := lines[1..];
      ScanTable(num, rest, t, comments);
      if lines[0] == TITLE {
        assert WithoutTitles(lines) == WithoutTitles(rest);
      } else {
        var ws := WithoutTitles(lines);
        assert ws == [lines[0]] + WithoutTitles(rest);
        assert ws[0] == lines[0] && ws[1..] == WithoutTitles(rest);
        var first := ParseHeaderVariable(num, lines[0]);
        if first.Ok? {
          ScanTable(num, rest, Record(t, first.value), comments);
        }
      }
    }
  }

  lemma {:induction false} ScanComments(num: Conversions, lines: seq<string>, t: Tables, comments: seq<string>)
    ensures ScanHeader(num, lines, false, t, comments)
         == match TitleAt(lines)
            case None => Ok((t, comments + lines))
            case Some(k) => ScanHeader(num, lines[k + 1..], true, t, comments + lines[..k])
    decreases |lines|
  {
    if lines == [] {
      assert comments + lines == comments;
    } else if lines[0] == TITLE {
      assert lines[..0] == [] && comments + [] == comments;
    } else {
      var rest := lines[1..];
      ScanCommentStep(num, lines, t, comments);
      ScanComments(num, rest, t, comments + [lines[0]]);
      match TitleAt(rest)
      case None =>
        MovedComments(comments, lines, |rest|);
      case Some(k) =>
        MovedComments(comments, lines, k);
    }
  }

  /** A line before any title is one more comment. */
  lemma ScanCommentStep(num: Conversions, lines: seq<string>, t: Tables, comments: seq<string>)
    requires lines != [] && lines[0] != TITLE
    ensures ScanHeader(num, lines, false, t, comments) == ScanHeader(num, lines[1..], false, t, comments + [lines[0]])
    ensures TitleAt(lines) == match TitleAt(lines[1..]) case None => None case Some(k) => Some(k + 1)
  {
  }

  /** Moving the first line onto the comments keeps the lines in order. */
  lemma MovedComments(comments: seq<string>, lines: seq<string>, k: nat)
    requires k < |lines|
    ensures comments + [lines[0]] + lines[1..][..k] == comments + lines[..k + 1]
    ensures k + 1 < |lines| ==> lines[1..][k + 1..] == lines[k + 2..]
    ensures k + 1 == |lines| ==> comments + [lines[0]] + lines[1..] == comments + lines
  {
    assert [lines[0]] + lines[1..][..k] == lines[..k + 1];
    if k + 1 == |lines| {
      assert lines[1..][..k] == lines[1..];
      assert lines[..k + 1] == lines;
    }
  }

  /** The loop of `parse_header_lines` agrees with the declarative reading:
      the comments are the lines before the first title, joined by newlines;
      the title lines are dropped; every later line is one variable. */
  lemma HeaderReference(num: Conversions, lines: seq<string>)
    ensures ParseHeaderLines(num, lines) == ReadHeader(num, lines)
  {
    ScanComments(num, lines, NO_TABLES, []);
    if TitleAt(lines).None? {
      ReferenceNoTitle(num, lines);
    } else {
      ReferenceTitle(num, lines, TitleAt(lines).value);
    }
  }

  lemma ReferenceNoTitle(num: Conversions, lines: seq<string>)
    requires TitleAt(lines).None?
    requires ScanHeader(num, lines, false, NO_TABLES, []) == Ok((NO_TABLES, [] + lines))
    ensures ParseHeaderLines(num, lines) == ReadHeader(num, lines)
  {
    assert [] + lines == lines;
    assert ParseAll(num, []) == Ok([]);
  }

  lemma ReferenceTitle(num: Conversions, lines: seq<string>, k: nat)
    requires TitleAt(lines) == Some(k)
    requires ScanHeader(num, lines, false, NO_TABLES, []) == ScanHeader(num, lines[k + 1..], true, NO_TABLES, [] + lines[..k])
    ensures ParseHeaderLines(num, lines) == ReadHeader(num, lines)
  {
    ScanTable(num, lines[k + 1..], NO_TABLES, [] + lines[..k]);
    assert [] + lines[..k] == lines[..k];
  }

  /** Without a title line, every line is a comment and no variable is read. */
  lemma NoTitleAllComments(num: Conversions, lines: seq<string>)
    requires TITLE !in lines
    ensures ParseHeaderLines(num, lines) == Ok(HeaderDoc(NO_TABLES, Join("\n", lines)))
  {
    HeaderReference(num, lines);
  }

  // ---------------------------------------------------------------------
  // Last one wins.

  function KeysOf(vs: seq<Variable>): set<string>
  {
    set i | 0 <= i < |vs| :: vs[i].key
  }

  lemma {:induction false} CollectKeys(t: Tables, vs: seq<Variable>)
    ensures CollectFrom(t, vs).variable.Keys == t.variable.Keys + KeysOf(vs)
    decreases |vs|
  {
    if vs != [] {
      CollectKeys(Record(t, vs[0]), vs[1..]);
      assert KeysOf(vs) == {vs[0].key} + KeysOf(vs[1..]) by {
        forall key | key in KeysOf(vs) ensures key in {vs[0].key} + KeysOf(vs[1..]) {
          var i :| 0 <= i < |vs| && vs[i].key == key;
          if i > 0 {
            assert vs[1..][i - 1].key == key;
          }
        }
        forall key | key in KeysOf(vs[1..]) ensures key in KeysOf(vs) {
          var i :| 0 <= i < |vs[1..]| && vs[1..][i].key == key;
          assert vs[i + 1].key == key;
        }
      }
    }
  }

  lemma {:induction false} CollectUntouched(t: Tables, vs: seq<Variable>, key: string)
    requires forall j :: 0 <= j < |vs| ==> vs[j].key != key
    ensures key in t.variable ==> key in CollectFrom(t, vs).variable && CollectFrom(t, vs).variable[key] == t.variable[key]
    ensures key in t.description ==> key in CollectFrom(t, vs).description && CollectFrom(t, vs).description[key] == t.description[key]
    ensures key in t.inAutomesh ==> key in CollectFrom(t, vs).inAutomesh && CollectFrom(t, vs).inAutomesh[key] == t.inAutomesh[key]
    decreases |vs|
  {
    if vs != [] {
      CollectUntouched(Record(t, vs[0]), vs[1..], key);
    }
  }

  /** A variable's entries come from the last line that names it. */
  lemma {:induction false} CollectLast(t: Tables, vs: seq<Variable>, i: nat)
    requires i < |vs|
    requires forall j :: i < j < |vs| ==> vs[j].key != vs[i].key
    ensures vs[i].key in CollectFrom(t, vs).variable
    ensures vs[i].key in CollectFrom(t, vs).description && vs[i].key in CollectFrom(t, vs).inAutomesh
    ensures CollectFrom(t, vs).variable[vs[i].key] == vs[i].value
    ensures CollectFrom(t, vs).description[vs[i].key] == vs[i].description
    ensures CollectFrom(t, vs).inAutomesh[vs[i].key] == vs[i].inAutomesh
    decreases i
  {
    var t1 := Record(t, vs[0]);
    if i == 0 {
      CollectUntouched(t1, vs[1..], vs[0].key);
    } else {
      assert forall j :: i - 1 < j < |vs[1..]| ==> vs[1..][j].key != vs[1..][i - 1].key;
      CollectLast(t1, vs[1..], i - 1);
    }
  }

  /** In a parsed header, a variable named on several lines after the title
      takes its value, description and mark from the last of them. */
  lemma HeaderLastWins(num: Conversions, lines: seq<string>, i: nat, v: Variable)
    requires ParseHeaderLines(num, lines).Ok?
    requires i < |VariableLines(lines)| && ParseHeaderVariable(num, VariableLines(lines)[i]) == Ok(v)
    requires forall j :: (i < j < |VariableLines(lines)| && ParseHeaderVariable(num, VariableLines(lines)[j]).Ok?
      ==> ParseHeaderVariable(num, VariableLines(lines)[j]).value.key != v.key)
    ensures var t := ParseHeaderLines(num, lines).value.tables;
      v.key in t.variable && t.variable[v.key] == v.value &&
      t.description[v.key] == v.description && t.inAutomesh[v.key] == v.inAutomesh
  {
    HeaderReference(num, lines);
    var vs := ParseAll(num, VariableLines(lines)).value;
    var f := line => ParseHeaderVariable(num, line);
    MapAllEach(f, VariableLines(lines), i);
    forall j | i < j < |vs| ensures vs[j].key != vs[i].key {
      MapAllEach(f, VariableLines(lines), j);
    }
    CollectLast(NO_TABLES, vs, i);
  }
}
