/** The Python `str` operations the parsers rely on, over `seq<char>`:
    `isspace`, `strip`, `strip(chars)`, `startswith`, `in`, `split()` (runs of
    whitespace, empty pieces dropped), `split(sep)` (a literal separator, empty
    pieces kept) and `sep.join(parts)`.
 */
module PyStr {

  import opened Results

  /** Python's `str.isspace()` for one character. */
  predicate IsSpace(c: char)
  {
    var n := c as int;
    (9 <= n <= 13) || (28 <= n <= 32) || n == 0x85 || n == 0xA0 || n == 0x1680
    || (0x2000 <= n <= 0x200A) || n == 0x2028 || n == 0x2029 || n == 0x202F
    || n == 0x205F || n == 0x3000
  }

  /** Every character of `s` satisfies `p`. */
  predicate All(s: string, p: char -> bool)
  {
    forall i :: 0 <= i < |s| ==> p(s[i])
  }

  /** `s` neither starts nor ends with a character satisfying `p`. */
  predicate Trimmed(s: string, p: char -> bool)
  {
    s == [] || (!p(s[0]) && !p(s[|s| - 1]))
  }

  /** `s` with its leading characters satisfying `p` removed. */
  function TrimStart(s: string, p: char -> bool): (r: string)
    ensures |r| <= |s| && r == s[|s| - |r|..]
    ensures All(s[..|s| - |r|], p)
    ensures r == [] || !p(r[0])
    decreases |s|
  {
    if s != [] && p(s[0]) then
      var r := TrimStart(s[1..], p);
      TrimStartStep(s, p, r);
      r
    else s
  }

  /** What trimming the tail leaves is also what trimming `s` leaves, when
      the first character of `s` is trimmed. */
  lemma TrimStartStep(s: string, p: char -> bool, r: string)
    requires s != [] && p(s[0])
    requires |r| <= |s| - 1 && r == s[1..][|s| - 1 - |r|..] && All(s[1..][..|s| - 1 - |r|], p)
    ensures r == s[|s| - |r|..] && All(s[..|s| - |r|], p)
  {
    assert s[..|s| - |r|] == [s[0]] + s[1..][..|s| - 1 - |r|];
  }

  /** `s` with its trailing characters satisfying `p` removed. */
  function TrimEnd(s: string, p: char -> bool): (r: string)
    ensures |r| <= |s| && r == s[..|r|]
    ensures All(s[|r|..], p)
    ensures r == [] || !p(r[|r| - 1])
    decreases |s|
  {
    if s != [] && p(s[|s| - 1]) then
      var r := TrimEnd(s[..|s| - 1], p);
      assert s[|r|..] == s[..|s| - 1][|r|..] + [s[|s| - 1]];
      r
    else s
  }

  /** Python's `s.strip(chars)`, with the character set given as `p`. */
  function StripBy(s: string, p: char -> bool): (r: string)
    ensures Trimmed(r, p)
    ensures r == [] <==> All(s, p)
    ensures Trimmed(s, p) ==> r == s
    ensures |r| <= |s|
  {
    var t := TrimStart(s, p);
    TrimStartEmpty(s, p);
    TrimEndEmpty(t, p);
    TrimmedUnchanged(s, p);
    TrimEnd(t, p)
  }

  lemma TrimStartEmpty(s: string, p: char -> bool)
    ensures TrimStart(s, p) == [] <==> All(s, p)
  {
    var t := TrimStart(s, p);
    if t == [] {
      assert s[..|s|] == s;
    } else {
      assert t[0] == s[|s| - |t|];
      assert !p(s[|s| - |t|]);
    }
  }

  lemma TrimEndEmpty(t: string, p: char -> bool)
    ensures TrimEnd(t, p) == [] <==> All(t, p)
  {
    var r := TrimEnd(t, p);
    assert t[0..] == t;
    assert r != [] ==> r[|r| - 1] == t[|r| - 1];
  }

  lemma TrimmedUnchanged(s: string, p: char -> bool)
    ensures Trimmed(s, p) ==> TrimEnd(TrimStart(s, p), p) == s
  {
  }

  /** Python's `s.strip()`. */
  function Strip(s: string): string
  {
    StripBy(s, IsSpace)
  }

  /** Python's `s.strip(c)` for a single character `c`. */
  function StripChar(s: string, c: char): string
  {
    StripBy(s, x => x == c)
  }

  /** A line as the segmenter keeps it: already stripped and not blank. */
  predicate Clean(s: string)
  {
    s != [] && Trimmed(s, IsSpace)
  }

  /** Python's `s.startswith(prefix)`. */
  predicate StartsWith(s: string, prefix: string)
  {
    |prefix| <= |s| && s[..|prefix|] == prefix
  }

  /** `sub` occurs in `s` starting at index `i`. */
  predicate OccursAt(s: string, sub: string, i: int)
  {
    0 <= i && i + |sub| <= |s| && s[i..i + |sub|] == sub
  }

  /** Python's `sub in s`. */
  ghost predicate Contains(s: string, sub: string)
  {
    exists i :: OccursAt(s, sub, i)
  }

  /** The first occurrence of `sub` in `s` at or after `from` (Python's `s.find(sub, from)`). */
  function FindFrom(s: string, sub: string, from: nat): (r: Option<nat>)
    requires from <= |s|
    ensures r.Some? ==> from <= r.value && OccursAt(s, sub, r.value)
    ensures r.Some? ==> forall j :: from <= j < r.value ==> !OccursAt(s, sub, j)
    ensures r.None? ==> forall j :: from <= j ==> !OccursAt(s, sub, j)
    decreases |s| - from
  {
    if from + |sub| > |s| then None
    else if s[from..from + |sub|] == sub then Some(from)
    else FindFrom(s, sub, from + 1)
  }

  /** Python's `sep.join(parts)`. */
  function Join(sep: string, parts: seq<string>): string
  {
    if |parts| == 0 then ""
    else if |parts| == 1 then parts[0]
    else parts[0] + sep + Join(sep, parts[1..])
  }

  /** No occurrence of `sub` inside `s[..k]` when the first one in `s` is at `k`. */
  lemma NoOccurrenceBefore(s: string, sub: string, k: nat)
    requires sub != [] && k <= |s|
    requires forall j :: 0 <= j < k ==> !OccursAt(s, sub, j)
    ensures !Contains(s[..k], sub)
  {
    forall i | 0 <= i && i + |sub| <= k ensures !OccursAt(s[..k], sub, i) {
      assert s[..k][i..i + |sub|] == s[i..i + |sub|];
      assert !OccursAt(s, sub, i);
    }
  }

  /** Python's `s.split(sep)` for a non-empty literal separator: the pieces
      between leftmost non-overlapping occurrences, empty pieces kept. */
  function Split(s: string, sep: string): (r: seq<string>)
    requires sep != []
    ensures |r| >= 1
    decreases |s|
  {
    match FindFrom(s, sep, 0)
    case None => [s]
    case Some(k) => [s[..k]] + Split(s[k + |sep|..], sep)
  }

  /** Joining the pieces of a split with the separator gives back the string. */
  lemma {:induction false} SplitJoin(s: string, sep: string)
    requires sep != []
    ensures Join(sep, Split(s, sep)) == s
    decreases |s|
  {
    match FindFrom(s, sep, 0)
    case None =>
    case Some(k) =>
      var t := s[k + |sep|..];
      var rest := Split(t, sep);
      assert Split(s, sep) == [s[..k]] + rest;
      SplitJoin(t, sep);
      JoinCons(sep, s[..k], rest);
      AroundOccurrence(s, sep, k);
  }

  /** Joining a head piece in front of a non-empty list. */
  lemma JoinCons(sep: string, a: string, ps: seq<string>)
    requires ps != []
    ensures Join(sep, [a] + ps) == a + sep + Join(sep, ps)
  {
    assert ([a] + ps)[1..] == ps;
  }

  /** A string is what precedes an occurrence, the occurrence and what follows. */
  lemma AroundOccurrence(s: string, sub: string, k: nat)
    requires OccursAt(s, sub, k)
    ensures s == s[..k] + sub + s[k + |sub|..]
  {
    assert s == s[..k] + s[k..k + |sub|] + s[k + |sub|..];
  }

  /** No piece of a split contains the separator. */
  lemma {:induction false} SplitPieces(s: string, sep: string)
    requires sep != []
    ensures forall i :: 0 <= i < |Split(s, sep)| ==> !Contains(Split(s, sep)[i], sep)
    decreases |s|
  {
    match FindFrom(s, sep, 0)
    case None =>
      assert forall j :: 0 <= j ==> !OccursAt(s, sep, j);
    case Some(k) =>
      NoOccurrenceBefore(s, sep, k);
      SplitPieces(s[k + |sep|..], sep);
      assert Split(s, sep)[1..] == Split(s[k + |sep|..], sep);
  }

  /** The first piece of `s.strip().split(" ")`: the leading token of a value field. */
  function FirstWord(s: string): string
  {
    Split(Strip(s), " ")[0]
  }

  /** A word as Python's `split()` yields it: non-empty, no whitespace. */
  predicate IsWord(w: string)
  {
    w != [] && forall i :: 0 <= i < |w| ==> !IsSpace(w[i])
  }

  /** The length of the run of non-whitespace characters that starts `s`. */
  function WordLength(s: string): (n: nat)
    ensures n <= |s|
    ensures forall i :: 0 <= i < n ==> !IsSpace(s[i])
    ensures n < |s| ==> IsSpace(s[n])
  {
    if s == [] || IsSpace(s[0]) then 0 else 1 + WordLength(s[1..])
  }

  /** Python's `s.split()`: the maximal runs of non-whitespace characters, in order. */
  function SplitWs(s: string): (r: seq<string>)
    ensures forall i :: 0 <= i < |r| ==> IsWord(r[i])
    decreases |s|
  {
    var t := TrimStart(s, IsSpace);
    if t == [] then []
    else
      var n := WordLength(t);
      assert n >= 1;
      var rest := SplitWs(t[n..]);
      assert IsWord(t[..n]);
      [t[..n]] + rest
  }

  /** A leading space does not change the whitespace split. */
  lemma SplitWsSpace(s: string)
    ensures SplitWs(" " + s) == SplitWs(s)
  {
    assert (" " + s)[1..] == s;
  }

  /** Splitting on whitespace undoes joining words with single spaces. */
  lemma {:induction false} SplitWsJoin(ws: seq<string>)
    requires forall i :: 0 <= i < |ws| ==> IsWord(ws[i])
    ensures SplitWs(Join(" ", ws)) == ws
    decreases |ws|
  {
    if |ws| == 0 {
      SplitWsEmpty();
    } else if |ws| == 1 {
      SplitWsSingle(ws[0]);
      assert ws == [ws[0]];
    } else {
      var rest := Join(" ", ws[1..]);
      var tail := " " + rest;
      assert tail[0] == ' ';
      assert Join(" ", ws) == ws[0] + tail by {
        assert Join(" ", ws) == ws[0] + " " + rest;
      }
      calc {
        SplitWs(Join(" ", ws));
        SplitWs(ws[0] + tail);
        { SplitWsWord(ws[0], tail); }
        [ws[0]] + SplitWs(tail);
        { SplitWsSpace(rest); SplitWsJoin(ws[1..]); }
        [ws[0]] + ws[1..];
        ws;
      }
    }
  }

  lemma SplitWsEmpty()
    ensures SplitWs("") == []
  {
    assert TrimStart("", IsSpace) == "";
  }

  lemma SplitWsSingle(w: string)
    requires IsWord(w)
    ensures SplitWs(w) == [w]
  {
    SplitWsWord(w, "");
    SplitWsEmpty();
    assert w + "" == w;
  }

  /** A word followed by nothing or by whitespace is split off first. */
  lemma SplitWsWord(w: string, tail: string)
    requires IsWord(w)
    requires tail == [] || IsSpace(tail[0])
    ensures SplitWs(w + tail) == [w] + SplitWs(tail)
  {
    var s := w + tail;
    assert s[0] == w[0];
    assert TrimStart(s, IsSpace) == s;
    WordPrefix(w, tail);
    assert s[..|w|] == w && s[|w|..] == tail;
  }

  /** A word followed by nothing or by whitespace is exactly the leading run. */
  lemma WordPrefix(w: string, tail: string)
    requires IsWord(w)
    requires tail == [] || IsSpace(tail[0])
    ensures WordLength(w + tail) == |w|
  {
    assert forall i :: 0 <= i < |w| ==> (w + tail)[i] == w[i];
    assert tail != [] ==> (w + tail)[|w|] == tail[0];
  }

  /** A separator cannot occur where one of its characters is missing. */
  lemma AbsentChar(s: string, sep: string, m: nat)
    requires m < |sep|
    requires sep[m] !in s
    ensures !Contains(s, sep)
  {
    forall i | 0 <= i && i + |sep| <= |s| ensures !OccursAt(s, sep, i) {
      assert s[i + m] == s[i..i + |sep|][m];
    }
  }

  /** A string without the separator splits into itself. */
  lemma SplitNone(s: string, sep: string)
    requires sep != []
    requires !Contains(s, sep)
    ensures Split(s, sep) == [s]
  {
    assert FindFrom(s, sep, 0).None?;
  }

  /** When the first occurrence of `sep` in `a + sep + b` is the one after `a`,
      splitting yields `a` followed by the split of `b`. */
  lemma SplitFirst(a: string, sep: string, b: string)
    requires sep != []
    requires !Contains(a + sep[..|sep| - 1], sep)
    ensures Split(a + sep + b, sep) == [a] + Split(b, sep)
  {
    var s := a + sep + b;
    forall j | 0 <= j < |a| ensures !OccursAt(s, sep, j) {
      assert s[j..j + |sep|] == (a + sep[..|sep| - 1])[j..j + |sep|];
      assert !OccursAt(a + sep[..|sep| - 1], sep, j);
    }
    assert s[|a|..|a| + |sep|] == sep;
    FindFirstAt(s, sep, 0, |a|);
    assert s[..|a|] == a;
    assert s[|a| + |sep|..] == b;
  }

  /** The search reports `k` when `sep` occurs at `k` and nowhere in `[from, k)`. */
  lemma {:induction false} FindFirstAt(s: string, sep: string, from: nat, k: nat)
    requires from <= k
    requires OccursAt(s, sep, k)
    requires forall j :: from <= j < k ==> !OccursAt(s, sep, j)
    ensures FindFrom(s, sep, from) == Some(k)
    decreases k - from
  {
    if from < k {
      assert !OccursAt(s, sep, from);
      FindFirstAt(s, sep, from + 1, k);
    }
  }

  /** Stripping removes surrounding whitespace from an already-trimmed core. */
  lemma StripPadded(a: string, w: string, b: string)
    requires All(a, IsSpace) && All(b, IsSpace)
    requires w != [] && Trimmed(w, IsSpace)
    ensures Strip(a + w + b) == w
  {
    var u := w + b;
    assert u[0] == w[0];
    assert a + w + b == a + u;
    PaddedStart(a, u);
    TrimEndPadded(w, b);
  }

  /** Stripping leading padding off a string that then starts with a
      non-space only leaves its end to trim. */
  lemma PaddedStart(a: string, u: string)
    requires All(a, IsSpace)
    requires u != [] && !IsSpace(u[0])
    ensures Strip(a + u) == TrimEnd(u, IsSpace)
  {
    TrimStartPadded(a, u);
    StripTrims(a + u);
  }

  /** `strip()` trims the start, then the end. */
  lemma StripTrims(s: string)
    ensures Strip(s) == TrimEnd(TrimStart(s, IsSpace), IsSpace)
  {
  }

  lemma {:induction false} TrimStartPadded(a: string, u: string)
    requires All(a, IsSpace)
    requires u != [] && !IsSpace(u[0])
    ensures TrimStart(a + u, IsSpace) == u
    decreases |a|
  {
    if a != [] {
      assert (a + u)[0] == a[0];
      assert All(a[1..], IsSpace);
      calc {
        TrimStart(a + u, IsSpace);
        TrimStart((a + u)[1..], IsSpace);
        { assert (a + u)[1..] == a[1..] + u; }
        TrimStart(a[1..] + u, IsSpace);
        { TrimStartPadded(a[1..], u); }
        u;
      }
    } else {
      assert a + u == u;
    }
  }

  lemma {:induction false} TrimEndPadded(w: string, b: string)
    requires All(b, IsSpace)
    requires w != [] && !IsSpace(w[|w| - 1])
    ensures TrimEnd(w + b, IsSpace) == w
    decreases |b|
  {
    if b != [] {
      assert (w + b)[|w + b| - 1] == b[|b| - 1];
      assert All(b[..|b| - 1], IsSpace);
      calc {
        TrimEnd(w + b, IsSpace);
        TrimEnd((w + b)[..|w + b| - 1], IsSpace);
        { assert (w + b)[..|w + b| - 1] == w + b[..|b| - 1]; }
        TrimEnd(w + b[..|b| - 1], IsSpace);
        { TrimEndPadded(w, b[..|b| - 1]); }
        w;
      }
    } else {
      assert w + b == w;
    }
  }

  /** Splitting a string that starts with a token and a single-character
      separator yields the token first. */
  lemma SplitCharHead(a: string, c: char, b: string)
    requires c !in a
    ensures Split(a + [c] + b, [c])[0] == a
  {
    AbsentChar(a + [c][..0], [c], 0);
    assert a + [c][..0] == a;
    SplitFirst(a, [c], b);
  }

  /** Trimming the end of `w + t` keeps all of `w` when `w` ends in a
      non-space, and cuts `t` to one of its prefixes. */
  lemma {:induction false} TrimEndKeeps(w: string, t: string) returns (m: nat)
    requires w != [] && !IsSpace(w[|w| - 1])
    ensures m <= |t| && TrimEnd(w + t, IsSpace) == w + t[..m]
    decreases |t|
  {
    if t != [] && IsSpace(t[|t| - 1]) {
      TrimEndDrop(w, t);
      m := TrimEndKeeps(w, t[..|t| - 1]);
      assert t[..|t| - 1][..m] == t[..m];
    } else {
      TrimEndStops(w, t);
      m := |t|;
      assert t[..|t|] == t;
    }
  }

  /** A trailing space of `t` is trimmed first. */
  lemma TrimEndDrop(w: string, t: string)
    requires t != [] && IsSpace(t[|t| - 1])
    ensures TrimEnd(w + t, IsSpace) == TrimEnd(w + t[..|t| - 1], IsSpace)
  {
    var s := w + t;
    assert s[|s| - 1] == t[|t| - 1];
    TrimEndUnfold(s, IsSpace);
    assert s[..|s| - 1] == w + t[..|t| - 1];
  }

  lemma TrimEndUnfold(s: string, p: char -> bool)
    requires s != [] && p(s[|s| - 1])
    ensures TrimEnd(s, p) == TrimEnd(s[..|s| - 1], p)
  {
  }

  /** Nothing is trimmed from a string that ends in a non-space. */
  lemma TrimEndStops(w: string, t: string)
    requires w != [] && !IsSpace(w[|w| - 1])
    requires t == [] || !IsSpace(t[|t| - 1])
    ensures TrimEnd(w + t, IsSpace) == w + t
  {
    var s := w + t;
    assert s[|s| - 1] == if t == [] then w[|w| - 1] else t[|t| - 1];
  }


  /** Stripping a padded field that starts with a word keeps the word and
      a prefix of what follows it. */
  lemma StripWordStart(a: string, w: string, t: string) returns (m: nat)
    requires All(a, IsSpace) && IsWord(w)
    ensures m <= |t| && Strip(a + w + t) == w + t[..m]
  {
    WordLeads(a, w, t);
    m := TrimEndKeeps(w, t);
  }

  /** Stripping padding followed by a word only trims the end. */
  lemma WordLeads(a: string, w: string, t: string)
    requires All(a, IsSpace) && IsWord(w)
    ensures Strip(a + w + t) == TrimEnd(w + t, IsSpace)
  {
    var u := w + t;
    assert u[0] == w[0];
    assert a + w + t == a + u;
    PaddedStart(a, u);
  }

  /** Splitting on single spaces puts the word before the first space first. */
  lemma SpaceSplitHead(w: string, t: string)
    requires IsWord(w)
    requires t == [] || t[0] == ' '
    ensures Split(w + t, " ")[0] == w
  {
    assert IsSpace(' ');
    assert ' ' !in w;
    if t == [] {
      assert w + t == w;
      AbsentChar(w, " ", 0);
      SplitNone(w, " ");
    } else {
      assert w + t == w + [' '] + t[1..];
      SplitCharHead(w, ' ', t[1..]);
    }
  }

  /** The leading token of a padded value field is the word that starts it. */
  lemma FirstWordOf(a: string, w: string, t: string)
    requires All(a, IsSpace) && IsWord(w)
    requires t == [] || t[0] == ' '
    ensures FirstWord(a + w + t) == w
  {
    var m := StripWordStart(a, w, t);
    SpaceSplitHead(w, t[..m]);
  }

  /** A string without the one-character separator splits into itself. */
  lemma SplitNoChar(s: string, c: char)
    requires c !in s
    ensures Split(s, [c]) == [s]
  {
    AbsentChar(s, [c], 0);
    SplitNone(s, [c]);
  }

  /** One separator character between two pieces without it splits into the two. */
  lemma SplitAtChar(a: string, c: char, b: string)
    requires c !in a && c !in b
    ensures Split(a + [c] + b, [c]) == [a, b]
  {
    AbsentChar(a + [c][..0], [c], 0);
    assert a + [c][..0] == a;
    SplitFirst(a, [c], b);
    SplitNoChar(b, c);
  }

  /** A last piece without the separator character is split off after the
      pieces of whatever comes before it. */
  lemma {:induction false} SplitAppendChar(s: string, c: char, x: string)
    requires c !in x
    ensures Split(s + [c] + x, [c]) == Split(s, [c]) + [x]
    decreases |s|
  {
    match FindFrom(s, [c], 0)
    case None =>
      NotFoundChar(s, c);
      SplitNoChar(s, c);
      SplitAtChar(s, c, x);
    case Some(k) =>
      var t := s[k + 1..];
      FoundChar(s, c, k);
      Regroup(s, c, x, k);
      HeadPieceChar(s[..k], c, t + [c] + x);
      SplitAppendChar(t, c, x);
      var rest := Split(t, [c]);
      assert [s[..k]] + (rest + [x]) == [s[..k]] + rest + [x];
  }

  lemma Regroup(s: string, c: char, x: string, k: nat)
    requires k < |s| && s[k] == c
    ensures s + [c] + x == s[..k] + [c] + (s[k + 1..] + [c] + x)
  {
    assert s == s[..k] + [c] + s[k + 1..];
  }

  /** A head piece without the separator character is split off first. */
  lemma HeadPieceChar(a: string, c: char, b: string)
    requires c !in a
    ensures Split(a + [c] + b, [c]) == [a] + Split(b, [c])
  {
    AbsentChar(a + [c][..0], [c], 0);
    assert a + [c][..0] == a;
    SplitFirst(a, [c], b);
  }

  /** No occurrence of a one-character separator means the character is absent. */
  lemma NotFoundChar(s: string, c: char)
    requires FindFrom(s, [c], 0).None?
    ensures c !in s
  {
    forall j | 0 <= j < |s| ensures s[j] != c {
      assert !OccursAt(s, [c], j);
      assert s[j..j + 1] == [s[j]];
    }
  }

  /** The first occurrence of a one-character separator: the character is
      there and not before it. */
  lemma FoundChar(s: string, c: char, k: nat)
    requires FindFrom(s, [c], 0) == Some(k)
    ensures k < |s| && s[k] == c && c !in s[..k]
  {
    FirstChar(s, c, k);
  }

  lemma FirstChar(s: string, c: char, k: nat)
    requires OccursAt(s, [c], k)
    requires forall j :: 0 <= j < k ==> !OccursAt(s, [c], j)
    ensures k < |s| && s[k] == c && c !in s[..k]
  {
    assert s[k..k + 1] == [c];
    forall j | 0 <= j < k ensures s[..k][j] != c {
      assert !OccursAt(s, [c], j);
      assert s[j..j + 1] == [s[j]];
    }
  }

  /** The piece after the last separator character, when it holds none. */
  lemma LastPiece(s: string, c: char, x: string)
    requires c !in x
    ensures |Split(s + [c] + x, [c])| >= 2 && Last(Split(s + [c] + x, [c])) == x
  {
    SplitAppendChar(s, c, x);
  }

  /** Two separator characters between three pieces without it split into the three. */
  lemma SplitAtChar2(a: string, c: char, b: string, d: string)
    requires c !in a && c !in b && c !in d
    ensures Split(a + [c] + b + [c] + d, [c]) == [a, b, d]
  {
    AbsentChar(a + [c][..0], [c], 0);
    assert a + [c][..0] == a;
    assert a + [c] + b + [c] + d == a + [c] + (b + [c] + d);
    SplitFirst(a, [c], b + [c] + d);
    SplitAtChar(b, c, d);
  }

  /** A word is its own strip. */
  lemma WordStripped(w: string)
    requires IsWord(w)
    ensures Strip(w) == w
  {
  }

  /** A word holds no space character. */
  lemma WordNoSpace(w: string)
    requires IsWord(w)
    ensures ' ' !in w
  {
    assert IsSpace(' ');
  }

  /** Whitespace holds no non-space character. */
  lemma SpacesNoChar(a: string, c: char)
    requires All(a, IsSpace) && !IsSpace(c)
    ensures c !in a
  {
  }
}
