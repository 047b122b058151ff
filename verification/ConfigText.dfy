/** The front end of the configuration file: comments are deleted and the text is cut into commands,
    each with the line it starts in. */
module ConfigText {
  import opened Defs

  const COMMENT := '#'
  const NEWLINE := '\n'
  const SEPARATOR := ';'

  predicate IsSpace(c: char) {
    c == ' ' || c == '\t' || c == '\n' || c == '\U{000B}' || c == '\U{000C}' || c == '\r'
  }

  function Newlines(s: string): nat {
    if s == [] then 0 else Newlines(s[..|s| - 1]) + if s[|s| - 1] == NEWLINE then 1 else 0
  }

  lemma {:induction false} NewlinesSplit(s: string, t: string)
    ensures Newlines(s + t) == Newlines(s) + Newlines(t)
  {
    if t == [] {
      assert s + t == s;
    } else {
      NewlinesSplit(s, t[..|t| - 1]);
      assert (s + t)[..|s + t| - 1] == s + t[..|t| - 1];
    }
  }

  /** The first place of `c` in `s` from `from` on. */
  method FindChar(s: string, c: char, from: nat) returns (at: Option<nat>)
    requires from <= |s|
    ensures at.Some? ==> from <= at.value < |s| && s[at.value] == c && c !in s[from..at.value]
    ensures at.None? ==> c !in s[from..]
  {
    for i := from to |s|
      invariant c !in s[from..i]
    {
      if s[i] == c {
        return Some(i);
      }
      assert s[from..i + 1] == s[from..i] + [s[i]];
    }
    return None;
  }

  // ---------------------------------------------------------------- comments

  /** The end of the line that position `i` is in: the place of its newline or the end of the text. */
  function LineEnd(s: string, i: nat): (n: nat)
    requires i <= |s|
    ensures i <= n <= |s| && (n < |s| ==> s[n] == NEWLINE)
    ensures forall k | i <= k < n :: s[k] != NEWLINE
    decreases |s| - i
  {
    if i == |s| || s[i] == NEWLINE then i else LineEnd(s, i + 1)
  }

  /** The text from `i` on without comments. A comment reaches up to the end of its line. */
  function Stripped(s: string, i: nat): string
    requires i <= |s|
    decreases |s| - i
  {
    if i == |s| then []
    else if s[i] == COMMENT then Stripped(s, LineEnd(s, i))
    else [s[i]] + Stripped(s, i + 1)
  }

  /** The place in `s` of character number `j` of the stripped text. */
  function Origin(s: string, i: nat, j: nat): (p: nat)
    requires i <= |s| && j < |Stripped(s, i)|
    ensures i <= p < |s| && s[p] == Stripped(s, i)[j]
    decreases |s| - i
  {
    if s[i] == COMMENT then Origin(s, LineEnd(s, i), j)
    else if j == 0 then i
    else Origin(s, i + 1, j - 1)
  }

  lemma {:induction false} SameLine(s: string, i: nat, n: nat)
    requires i <= n <= |s| && forall k | i <= k < n :: s[k] != NEWLINE
    ensures Newlines(s[..n]) == Newlines(s[..i])
    decreases n
  {
    if i < n {
      assert s[..n][..n - 1] == s[..n - 1];
      SameLine(s, i, n - 1);
    }
  }

  lemma LinesUpTo(s: string, i: nat)
    requires i < |s|
    ensures Newlines(s[..i + 1]) == Newlines(s[..i]) + if s[i] == NEWLINE then 1 else 0
  {
    assert s[..i + 1][..i] == s[..i];
  }

  lemma NoLines(s: string)
    ensures Newlines(s[..0]) == 0
  {
  }

  /** Stripping keeps every newline and leaves no comment character. */
  lemma {:induction false} StrippedLines(s: string, i: nat)
    requires i <= |s|
    ensures Newlines(s) == Newlines(s[..i]) + Newlines(Stripped(s, i))
    ensures COMMENT !in Stripped(s, i)
    decreases |s| - i
  {
    if i == |s| {
      assert s[..i] == s;
    } else if s[i] == COMMENT {
      var n := LineEnd(s, i);
      StrippedLines(s, n);
      SameLine(s, i, n);
    } else {
      StrippedLines(s, i + 1);
      LinesUpTo(s, i);
      OneMore(s[i], Stripped(s, i + 1));
    }
  }

  lemma OneMore(c: char, s: string)
    ensures Newlines([c] + s) == (if c == NEWLINE then 1 else 0) + Newlines(s)
    ensures Newlines([c]) == if c == NEWLINE then 1 else 0
  {
    NewlinesSplit([c], s);
    assert [c][..0] == [];
  }

  /** A character is in the same line before and after stripping, and the order is kept. */
  lemma {:induction false} OriginLine(s: string, i: nat, j: nat)
    requires i <= |s| && j < |Stripped(s, i)|
    ensures Newlines(s[..Origin(s, i, j)]) == Newlines(s[..i]) + Newlines(Stripped(s, i)[..j])
    ensures j + 1 < |Stripped(s, i)| ==> Origin(s, i, j) < Origin(s, i, j + 1)
    decreases |s| - i
  {
    hide Newlines;
    if s[i] == COMMENT {
      var n := LineEnd(s, i);
      OriginLine(s, n, j);
      SameLine(s, i, n);
    } else if j > 0 {
      OriginLine(s, i + 1, j - 1);
      LinesUpTo(s, i);
      assert Stripped(s, i)[..j] == [s[i]] + Stripped(s, i + 1)[..j - 1];
      OneMore(s[i], Stripped(s, i + 1)[..j - 1]);
    } else {
      assert Stripped(s, i)[..0] == s[..0];
      NoLines(s);
    }
  }

  /** Every comment that starts up to position `p` ends there or before. */
  ghost predicate OutsideComment(s: string, p: nat)
    requires p < |s|
  {
    forall k | 0 <= k <= p && s[k] == COMMENT :: exists e :: k <= e <= p && s[e] == NEWLINE
  }

  /** No comment is open at `i`. */
  ghost predicate NoneOpen(s: string, i: nat)
    requires i <= |s|
  {
    i == |s| || forall k | 0 <= k < i && s[k] == COMMENT :: exists e :: k <= e <= i && s[e] == NEWLINE
  }

  ghost predicate Survives(s: string, i: nat, p: nat)
    requires i <= |s|
  {
    exists j :: 0 <= j < |Stripped(s, i)| && Origin(s, i, j) == p
  }

  lemma SurvivesStep(s: string, i: nat, p: nat)
    requires i < |s| && s[i] != COMMENT
    ensures Survives(s, i, p) <==> p == i || Survives(s, i + 1, p)
  {
    var next := i + 1;
    assert Origin(s, i, 0) == i;
    if j :| 0 <= j < |Stripped(s, i)| && Origin(s, i, j) == p && p != i {
      assert Origin(s, next, j - 1) == p;
    }
    if j :| 0 <= j < |Stripped(s, next)| && Origin(s, next, j) == p {
      assert Origin(s, i, j + 1) == p;
    }
  }

  lemma SurvivesSkip(s: string, i: nat, p: nat)
    requires i < |s| && s[i] == COMMENT
    ensures Survives(s, i, p) <==> Survives(s, LineEnd(s, i), p)
  {
    var n := LineEnd(s, i);
    assert Stripped(s, i) == Stripped(s, n);
    assert forall j | 0 <= j < |Stripped(s, i)| :: Origin(s, i, j) == Origin(s, n, j);
  }

  /** Exactly the characters outside of comments survive. */
  lemma {:induction false} KeptOutsideComments(s: string, i: nat, p: nat)
    requires i <= p < |s| && NoneOpen(s, i)
    ensures Survives(s, i, p) <==> OutsideComment(s, p)
    decreases |s| - i
  {
    if s[i] == COMMENT {
      SurvivesSkip(s, i, p);
      var n := LineEnd(s, i);
      if p >= n {
        KeptOutsideComments(s, n, p);
      }
    } else {
      SurvivesStep(s, i, p);
      if p > i {
        KeptOutsideComments(s, i + 1, p);
      }
    }
  }

  lemma {:induction false} StripRun(s: string, i: nat, n: nat)
    requires i <= n <= |s| && COMMENT !in s[i..n]
    ensures Stripped(s, i) == s[i..n] + Stripped(s, n)
    decreases n - i
  {
    if i < n {
      assert s[i] in s[i..n] && s[i..n] == [s[i]] + s[i + 1..n];
      StripRun(s, i + 1, n);
    }
  }

  lemma {:induction false} LineEndIs(s: string, i: nat, n: nat)
    requires i <= n <= |s| && NEWLINE !in s[i..n] && (n < |s| ==> s[n] == NEWLINE)
    ensures LineEnd(s, i) == n
    decreases n - i
  {
    if i < n {
      assert s[i] in s[i..n] && s[i..n] == [s[i]] + s[i + 1..n];
      LineEndIs(s, i + 1, n);
    }
  }

  /** Deletes the comments by erasing from the text, comment by comment. */
  method DeleteComments(scriptFile: string) returns (script: string)
    ensures script == Stripped(scriptFile, 0)
  {
    hide Stripped, LineEnd;
    script := scriptFile;
    ghost var done, src := 0, 0;
    var cc := FindChar(script, COMMENT, 0);
    while cc.Some?
      invariant done <= |script| && src <= |scriptFile| && script[done..] == scriptFile[src..]
      invariant Stripped(scriptFile, 0) == script[..done] + Stripped(scriptFile, src)
      invariant cc.Some? ==> done <= cc.value < |script| && script[cc.value] == COMMENT && COMMENT !in script[done..cc.value]
      invariant cc.None? ==> COMMENT !in script[done..]
      decreases |scriptFile| - src
    {
      var start := cc.value;
      var eoc := FindChar(script, NEWLINE, start + 1);
      ghost var n := if eoc.Some? then eoc.value else |script|;
      CommentErased(scriptFile, src, script, done, start, n);
      if eoc.None? {
        return script[..start];
      }
      script := script[..start] + script[eoc.value..];
      done, src := start, src + (n - done);
      cc := FindChar(script, COMMENT, start);
    }
    StripRun(scriptFile, src, |scriptFile|);
    StrippedEnd(scriptFile);
  }

  lemma StrippedEnd(s: string)
    ensures Stripped(s, |s|) == []
  {
  }

  /** Texts that agree from some place on agree on every piece after it. */
  lemma SamePiece(s: string, i: nat, t: string, j: nat, n: nat)
    requires i <= |s| && j <= |t| && s[i..] == t[j..] && i + n <= |s|
    ensures j + n <= |t| && s[i..i + n] == t[j..j + n] && s[i + n..] == t[j + n..]
  {
    assert s[i..][..n] == t[j..][..n] && s[i..][n..] == t[j..][n..];
    assert s[i..][..n] == s[i..i + n] && t[j..][..n] == t[j..j + n];
    assert s[i..][n..] == s[i + n..] && t[j..][n..] == t[j + n..];
  }

  /** One comment, from `start` to `n`, is taken out of the text. */
  lemma CommentErased(s: string, src: nat, script: string, done: nat, start: nat, n: nat)
    requires done <= start < n <= |script| && src <= |s| && script[done..] == s[src..]
    requires script[start] == COMMENT && COMMENT !in script[done..start]
    requires NEWLINE !in script[start + 1..n] && (n < |script| ==> script[n] == NEWLINE)
    ensures
      var src' := src + (n - done);
      && src' <= |s| && script[n..] == s[src'..]
      && script[..done] + Stripped(s, src) == script[..start] + Stripped(s, src')
      && (n == |script| ==> Stripped(s, src') == [])
  {
    hide Stripped, LineEnd;
    var c := src + (start - done);
    SamePiece(script, done, s, src, start - done);
    StripRun(s, src, c);
    assert script[..start] == script[..done] + script[done..start];
    SkipComment(s, c, script, start, n);
  }

  lemma SkipComment(s: string, c: nat, script: string, start: nat, n: nat)
    requires start < n <= |script| && c <= |s| && script[start..] == s[c..] && script[start] == COMMENT
    requires NEWLINE !in script[start + 1..n] && (n < |script| ==> script[n] == NEWLINE)
    ensures
      var src' := c + (n - start);
      && src' <= |s| && script[n..] == s[src'..] && c < |s| && Stripped(s, c) == Stripped(s, src')
      && (n == |script| ==> Stripped(s, src') == [])
  {
    hide LineEnd, Stripped;
    var src' := c + (n - start);
    SamePiece(script, start, s, c, n - start);
    assert script[start..n] == [COMMENT] + script[start + 1..n];
    assert NEWLINE !in s[c..src'];
    assert s[c] == s[c..src'][0];
    if n < |script| {
      assert s[src'] == s[src'..][0] == script[n..][0];
    }
    LineEndIs(s, c, src');
    CommentSkipped(s, c);
    StrippedEnd(s);
  }

  lemma CommentSkipped(s: string, c: nat)
    requires c < |s| && s[c] == COMMENT
    ensures Stripped(s, c) == Stripped(s, LineEnd(s, c))
  {
  }

  // ---------------------------------------------------------------- commands

  predicate Blank(s: string, from: nat, to: nat)
    requires to <= |s|
  {
    forall i | from <= i < to :: IsSpace(s[i])
  }

  method TrimLeft(s: string) returns (r: string)
    ensures |r| <= |s| && r == s[|s| - |r|..] && Blank(s, 0, |s| - |r|) && (r != [] ==> !IsSpace(r[0]))
  {
    var i := 0;
    while i < |s| && IsSpace(s[i])
      invariant i <= |s| && Blank(s, 0, i)
    {
      i := i + 1;
    }
    r := s[i..];
  }

  method TrimRight(s: string) returns (r: string)
    ensures |r| <= |s| && r == s[..|r|] && Blank(s, |r|, |s|) && (r != [] ==> !IsSpace(r[|r| - 1]))
  {
    var i := |s|;
    while i > 0 && IsSpace(s[i - 1])
      invariant 0 <= i <= |s| && Blank(s, i, |s|)
    {
      i := i - 1;
    }
    r := s[..i];
  }

  method CountChars(s: string, c: char) returns (n: nat)
    ensures c == NEWLINE ==> n == Newlines(s)
  {
    n := 0;
    for i := 0 to |s|
      invariant c == NEWLINE ==> n == Newlines(s[..i])
    {
      assert s[..i + 1][..i] == s[..i];
      if s[i] == c {
        n := n + 1;
      }
    }
    assert s[..|s|] == s;
  }

  /** The text from `b` to `e` is a command: it starts and ends with something to see, holds no separator,
      and nothing but space lies between it and the separators around. */
  ghost predicate CommandAt(text: string, b: nat, e: nat) {
    && b < e <= |text| && !IsSpace(text[b]) && !IsSpace(text[e - 1])
    && SEPARATOR !in text[b..e]
    && (exists l :: StartsAt(text, l, b))
    && (exists r :: EndsAt(text, e, r))
  }

  ghost predicate StartsAt(text: string, l: nat, b: nat) {
    l <= b <= |text| && (l == 0 || text[l - 1] == SEPARATOR) && Blank(text, l, b)
  }

  ghost predicate EndsAt(text: string, e: nat, r: nat) {
    e <= r <= |text| && (r == |text| || text[r] == SEPARATOR) && Blank(text, e, r)
  }

  /** Everything to be seen before `n`, apart from separators, belongs to one of the commands. */
  ghost predicate Covered(text: string, places: seq<(nat, nat)>, n: nat)
    requires n <= |text|
  {
    forall p | 0 <= p < n && !IsSpace(text[p]) && text[p] != SEPARATOR :: Inside(places, p)
  }

  ghost predicate Inside(places: seq<(nat, nat)>, p: nat) {
    exists i :: 0 <= i < |places| && places[i].0 <= p < places[i].1
  }

  /** The commands are where `places` says, in order, with the line their first character is in. */
  ghost predicate Located(text: string, cmds: seq<(nat, string)>, places: seq<(nat, nat)>) {
    && |cmds| == |places|
    && (forall i | 0 <= i < |places| ::
          && CommandAt(text, places[i].0, places[i].1)
          && cmds[i] == (1 + Newlines(text[..places[i].0]), text[places[i].0..places[i].1]))
    && (forall i, j | 0 <= i < j < |places| :: places[i].1 < places[j].0)
  }

  /** Cuts the text at the separators. The result is exactly the list of its commands. */
  method SeparateCommands(text: string) returns (cmds: seq<(nat, string)>)
    ensures exists places: seq<(nat, nat)> :: Located(text, cmds, places) && Covered(text, places, |text|)
  {
    hide CommandAt, Newlines, Covered, Blank;
    cmds := [];
    ghost var places: seq<(nat, nat)> := [];
    var pos, currentLine := 0, 1;
    NothingYet(text);
    while pos < |text|
      invariant 0 <= pos <= |text| && (pos == 0 || pos == |text| || text[pos - 1] == SEPARATOR)
      invariant pos < |text| ==> currentLine == 1 + Newlines(text[..pos])
      invariant Located(text, cmds, places) && Covered(text, places, pos)
      invariant forall i | 0 <= i < |places| :: places[i].1 < pos || pos == |text|
    {
      var sep := FindChar(text, SEPARATOR, pos);
      var end := if sep.Some? then sep.value else |text|;
      var item := text[pos..end];
      var linesBefore := CountChars(item, NEWLINE);
      var left := TrimLeft(item);
      var linesAfter := CountChars(left, NEWLINE);
      var cmd := TrimRight(left);
      ghost var b, e := end - |left|, end - |left| + |cmd|;
      Segment(text, pos, end, left, cmd);
      SegmentLines(text, pos, end, b);
      if cmd != [] {
        cmds := cmds + [(currentLine + (linesBefore - linesAfter), cmd)];
        CoveredNow(text, places, pos, end, b, e);
        places := places + [(b, e)];
      } else {
        CoveredBlank(text, places, pos, end);
      }
      currentLine := currentLine + linesBefore;
      pos := if sep.Some? then end + 1 else end;
    }
  }

  lemma NothingYet(text: string)
    ensures Covered(text, [], 0) && Newlines(text[..0]) == 0
  {
  }

  lemma PieceOfPiece(s: string, i: nat, j: nat, k: nat)
    requires i <= j <= |s| && k <= j - i
    ensures s[i..j][k..] == s[i + k..j] && s[i..j][..k] == s[i..i + k]
    ensures forall n | i <= n < j :: s[i..j][n - i] == s[n]
  {
  }

  /** One piece of text between separators: the trimmed item is a command. */
  lemma Segment(text: string, pos: nat, end: nat, left: string, cmd: string)
    requires pos <= end <= |text| && (pos == 0 || text[pos - 1] == SEPARATOR) && (end == |text| || text[end] == SEPARATOR)
    requires SEPARATOR !in text[pos..end]
    requires |cmd| <= |left| <= end - pos && left == text[pos..end][end - pos - |left|..] && cmd == left[..|cmd|]
    requires Blank(text[pos..end], 0, end - pos - |left|) && (left != [] ==> !IsSpace(left[0]))
    requires Blank(left, |cmd|, |left|) && (cmd != [] ==> !IsSpace(cmd[|cmd| - 1]))
    ensures cmd == [] <==> left == []
    ensures
      var b, e := end - |left|, end - |left| + |cmd|;
      && left == text[b..end] && cmd == text[b..e] && Blank(text, pos, b) && Blank(text, e, end)
      && (cmd != [] ==> CommandAt(text, b, e))
  {
    hide CommandAt;
    var b, e := end - |left|, end - |left| + |cmd|;
    PieceOfPiece(text, pos, end, b - pos);
    PieceOfPiece(text, b, end, |cmd|);
    if cmd != [] {
      PieceOfPiece(text, b, e, 0);
      NoSeparator(text, pos, end);
      Bounded(text, pos, b, e, end);
    }
  }

  lemma NoSeparator(text: string, pos: nat, end: nat)
    requires pos <= end <= |text| && SEPARATOR !in text[pos..end]
    ensures forall k | pos <= k < end :: text[k] != SEPARATOR
  {
    forall k | pos <= k < end
      ensures text[k] in text[pos..end]
    {
    }
  }

  lemma Bounded(text: string, pos: nat, b: nat, e: nat, end: nat)
    requires pos <= b < e <= end <= |text| && (pos == 0 || text[pos - 1] == SEPARATOR) && (end == |text| || text[end] == SEPARATOR)
    requires forall k | b <= k < e :: text[k] != SEPARATOR
    requires !IsSpace(text[b]) && !IsSpace(text[e - 1]) && Blank(text, pos, b) && Blank(text, e, end)
    ensures CommandAt(text, b, e)
  {
    assert StartsAt(text, pos, b) && EndsAt(text, e, end);
  }

  /** Newlines of two adjoining pieces. */
  lemma Adjoining(text: string, i: nat, j: nat, k: nat)
    requires i <= j <= k <= |text|
    ensures Newlines(text[i..k]) == Newlines(text[i..j]) + Newlines(text[j..k])
  {
    hide Newlines;
    assert text[i..k] == text[i..j] + text[j..k];
    NewlinesSplit(text[i..j], text[j..k]);
  }

  /** The lines before a piece of text and those in its leading space. */
  lemma SegmentLines(text: string, pos: nat, end: nat, b: nat)
    requires pos <= b <= end <= |text| && (end < |text| ==> text[end] == SEPARATOR)
    ensures Newlines(text[b..end]) <= Newlines(text[pos..end])
    ensures Newlines(text[..b]) == Newlines(text[..pos]) + (Newlines(text[pos..end]) - Newlines(text[b..end]))
    ensures end < |text| ==> Newlines(text[..end + 1]) == Newlines(text[..pos]) + Newlines(text[pos..end])
  {
    hide Newlines;
    Adjoining(text, pos, b, end);
    Adjoining(text, 0, pos, b);
    Adjoining(text, 0, pos, end);
    if end < |text| {
      LinesUpTo(text, end);
    }
  }

  lemma CoveredNow(text: string, places: seq<(nat, nat)>, pos: nat, end: nat, b: nat, e: nat)
    requires pos <= b <= e <= end <= |text| && Covered(text, places, pos)
    requires Blank(text, pos, b) && Blank(text, e, end)
    ensures Covered(text, places + [(b, e)], end)
    ensures end < |text| && text[end] == SEPARATOR ==> Covered(text, places + [(b, e)], end + 1)
  {
    var places' := places + [(b, e)];
    forall p | 0 <= p < end && !IsSpace(text[p]) && text[p] != SEPARATOR
      ensures Inside(places', p)
    {
      if p < pos {
        var i :| 0 <= i < |places| && places[i].0 <= p < places[i].1;
        assert places'[i] == places[i];
      } else {
        assert places'[|places|] == (b, e);
      }
    }
  }

  lemma CoveredBlank(text: string, places: seq<(nat, nat)>, pos: nat, end: nat)
    requires pos <= end <= |text| && Covered(text, places, pos) && Blank(text, pos, end)
    ensures Covered(text, places, end)
    ensures end < |text| && text[end] == SEPARATOR ==> Covered(text, places, end + 1)
  {
  }

  lemma {:induction false} OriginIncreases(s: string, j: nat, k: nat)
    requires j < k < |Stripped(s, 0)|
    ensures Origin(s, 0, j) < Origin(s, 0, k)
    decreases k
  {
    OriginLine(s, 0, k - 1);
    if j < k - 1 {
      OriginIncreases(s, j, k - 1);
    }
  }

  /** The commands of a file: they are at `places` of the text without comments and nothing visible is left out;
      each comes with the line that its first character has in the file, and they are in the order of the file. */
  ghost predicate CommandsOf(file: string, cmds: seq<(nat, string)>, places: seq<(nat, nat)>) {
    var text := Stripped(file, 0);
    && Located(text, cmds, places) && Covered(text, places, |text|)
    && (forall i | 0 <= i < |places| ::
          places[i].0 < |text| && cmds[i].0 == 1 + Newlines(file[..Origin(file, 0, places[i].0)]))
    && (forall i, j | 0 <= i < j < |places| :: Origin(file, 0, places[i].0) < Origin(file, 0, places[j].0))
  }

  /** From the file to the commands. */
  method LoadCommands(file: string) returns (cmds: seq<(nat, string)>)
    ensures exists places: seq<(nat, nat)> :: CommandsOf(file, cmds, places)
  {
    var text := DeleteComments(file);
    cmds := SeparateCommands(text);
    ghost var places: seq<(nat, nat)> :| Located(text, cmds, places) && Covered(text, places, |text|);
    forall i | 0 <= i < |places|
      ensures places[i].0 < places[i].1 <= |text|
      ensures cmds[i].0 == 1 + Newlines(file[..Origin(file, 0, places[i].0)])
    {
      assert CommandAt(text, places[i].0, places[i].1);
      OriginLine(file, 0, places[i].0);
    }
    forall i, j | 0 <= i < j < |places|
      ensures Origin(file, 0, places[i].0) < Origin(file, 0, places[j].0)
    {
      OriginIncreases(file, places[i].0, places[j].0);
    }
    assert CommandsOf(file, cmds, places);
  }
}
