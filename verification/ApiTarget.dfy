/** Targets of API contract actions: `<METHOD> /path` (src/runtime/validator/agent_runtime.py). */
module ApiTarget {
  import opened Basics
  import opened Text

  /** `str.upper()` as far as ASCII words can tell: besides the ASCII letters only the dotless i, the long s and
      the st ligatures have upper-case forms in ASCII letters of the method names. */
  function UpperChar(c: char): string {
    if 'a' <= c <= 'z' then [(c as int - 32) as char]
    else if c == '\U{131}' then "I"
    else if c == '\U{17f}' then "S"
    else if c == '\U{fb05}' || c == '\U{fb06}' then "ST"
    else [c]
  }

  function Upper(s: string): string {
    FlatMap(UpperChar, s)
  }

  const SUPPORTED := {"GET", "POST", "PUT", "PATCH", "DELETE", "HEAD", "OPTIONS"}
  const AUTO_RUN := {"GET", "HEAD", "OPTIONS"}

  /** A method is read in any case. */
  lemma {:induction false} AnyCaseIsRead(word: string, verb: string)
    requires |word| == |verb|
    requires forall i :: 0 <= i < |verb| ==>
               'A' <= verb[i] <= 'Z' && (word[i] == verb[i] || word[i] as int == verb[i] as int + 32)
    ensures Upper(word) == verb
  {
    if word != "" {
      var n := |word| - 1;
      AnyCaseIsRead(word[..n], verb[..n]);
      assert verb == verb[..n] + [verb[n]];
    }
  }

  lemma {:induction false} UpperConcat(a: string, b: string)
    ensures Upper(a + b) == Upper(a) + Upper(b)
  {
    if b == "" {
      assert a + b == a;
    } else {
      var n := |b| - 1;
      assert (a + b)[..|a| + n] == a + b[..n] && (a + b)[|a| + n] == b[n];
      UpperConcat(a, b[..n]);
    }
  }

  lemma UpperOfOne(c: char)
    ensures Upper([c]) == UpperChar(c)
  {
    hide UpperChar;
    assert [c][..0] == "" && Upper("") == "";
    assert Upper([c]) == "" + UpperChar(c);
  }

  /** The letters outside ASCII whose upper case is in ASCII letters are read as well, wherever they stand. */
  lemma OddLettersAreRead(a: string, b: string)
    ensures Upper(a + ['\U{131}'] + b) == Upper(a) + "I" + Upper(b)
    ensures Upper(a + ['\U{17f}'] + b) == Upper(a) + "S" + Upper(b)
    ensures Upper(a + ['\U{fb05}'] + b) == Upper(a) + "ST" + Upper(b)
    ensures Upper(a + ['\U{fb06}'] + b) == Upper(a) + "ST" + Upper(b)
  {
    forall c <- {'\U{131}', '\U{17f}', '\U{fb05}', '\U{fb06}'}
      ensures Upper(a + [c] + b) == Upper(a) + UpperChar(c) + Upper(b)
    {
      UpperConcat(a + [c], b);
      UpperConcat(a, [c]);
      UpperOfOne(c);
    }
    hide Upper;
  }

  /** Length of the first word. */
  function WordEnd(s: string): (n: nat)
    ensures n <= |s| && (forall i :: 0 <= i < n ==> !IsSpace(s[i])) && (n < |s| ==> IsSpace(s[n]))
  {
    if s == "" || IsSpace(s[0]) then 0 else
      var n := WordEnd(s[1..]);
      assert forall i :: 0 < i <= n ==> s[i] == s[1..][i - 1];
      n + 1
  }

  /** The first word and the stripped rest. */
  function SplitTarget(target: string): (string, string) {
    var t := Strip(target);
    (t[..WordEnd(t)], Strip(t[WordEnd(t)..]))
  }

  /** `_parse_api_contract_target`, for any set of methods and any upper-casing. */
  function ParseTarget(target: string, upper: string -> string, methods: set<string>): Option<(string, string)> {
    var (word, path) := SplitTarget(target);
    if path == "" || upper(word) !in methods || path[0] != '/' then None else Some((upper(word), path))
  }

  /** White space, a word, white space, a trimmed path, white space. */
  ghost predicate Reads(target: string, lead: string, word: string, gap: string, path: string, trail: string) {
    && target == lead + word + gap + path + trail
    && Spaces(lead) && Spaces(gap) && Spaces(trail) && gap != ""
    && word != "" && (forall i :: 0 <= i < |word| ==> !IsSpace(word[i]))
    && path != "" && Trimmed(path)
  }

  lemma {:induction false} WordEndIs(word: string, rest: string)
    requires (forall i :: 0 <= i < |word| ==> !IsSpace(word[i])) && rest != "" && IsSpace(rest[0])
    ensures WordEnd(word + rest) == |word|
  {
    if word == "" {
      assert word + rest == rest;
    } else {
      assert (word + rest)[1..] == word[1..] + rest;
      WordEndIs(word[1..], rest);
    }
  }

  lemma WordAndRest(word: string, gap: string, path: string)
    requires word != "" && (forall i :: 0 <= i < |word| ==> !IsSpace(word[i]))
    requires gap != "" && Spaces(gap) && path != "" && Trimmed(path)
    ensures var mid := word + gap + path;
            && mid != "" && Trimmed(mid) && WordEnd(mid) == |word|
            && mid[..|word|] == word && mid[|word|..] == gap + path + ""
  {
    var mid := word + gap + path;
    assert mid[0] == word[0] && mid[|mid| - 1] == path[|path| - 1];
    assert mid == word + (gap + path);
    WordEndIs(word, gap + path);
  }

  lemma SplitReads(target: string, lead: string, word: string, gap: string, path: string, trail: string)
    requires Reads(target, lead, word, gap, path, trail)
    ensures SplitTarget(target) == (word, path)
  {
    var mid := word + gap + path;
    WordAndRest(word, gap, path);
    assert target == lead + mid + trail;
    StripPadded(lead, mid, trail);
    StripPadded(gap, path, "");
  }

  /** Where a text cut into three begins and ends. */
  lemma CutEnds(s: string, lead: string, r: string, trail: string)
    requires s == lead + r + trail && r != ""
    ensures s != "" && s[0] == (if lead == "" then r else lead)[0]
    ensures s[|s| - 1] == (if trail == "" then r else trail)[|(if trail == "" then r else trail)| - 1]
  {
  }

  /** The cut of what follows the first word of a trimmed text: white space first, none at the end. */
  lemma RestReads(t: string, gap: string, rest: string, more: string)
    requires Trimmed(t) && t[WordEnd(t)..] == gap + rest + more
    requires rest != "" && Trimmed(rest) && Spaces(gap) && Spaces(more)
    ensures t == t[..WordEnd(t)] + gap + rest && gap != ""
  {
    var n := WordEnd(t);
    CutEnds(t[n..], gap, rest, more);
    assert t == t[..n] + t[n..];
    hide WordEnd;
    assert t[|t| - 1] == t[n..][|t[n..]| - 1];
    assert more == "" && gap + rest + more == gap + rest;
    assert t[..n] + (gap + rest) == t[..n] + gap + rest;
  }

  lemma CutTarget(target: string, lead: string, t: string, trail: string, gap: string, rest: string, more: string)
    requires target == lead + t + trail && Spaces(lead) && Spaces(trail) && Trimmed(t) && WordEnd(t) > 0
    requires t[WordEnd(t)..] == gap + rest + more && rest != "" && Trimmed(rest) && Spaces(gap) && Spaces(more)
    ensures Reads(target, lead, t[..WordEnd(t)], gap, rest, trail)
  {
    RestReads(t, gap, rest, more);
    var word := t[..WordEnd(t)];
    assert lead + (word + gap + rest) + trail == lead + word + gap + rest + trail;
  }

  lemma SplitIsRead(target: string) returns (lead: string, gap: string, trail: string)
    requires SplitTarget(target).0 != "" && SplitTarget(target).1 != ""
    ensures Reads(target, lead, SplitTarget(target).0, gap, SplitTarget(target).1, trail)
  {
    var more;
    var t := Strip(target);
    lead, trail := StripCuts(target);
    gap, more := StripCuts(t[WordEnd(t)..]);
    TrimmedIsFixed(target);
    TrimmedIsFixed(t[WordEnd(t)..]);
    CutTarget(target, lead, t, trail, gap, Strip(t[WordEnd(t)..]), more);
  }

  /** A target is parsed exactly when it reads as a supported method and a path, between white space. */
  lemma ParsesIff(target: string, upper: string -> string, methods: set<string>, verb: string, path: string)
    requires upper("") !in methods
    ensures ParseTarget(target, upper, methods) == Some((verb, path))
            <==> exists lead, word, gap, trail ::
                   && Reads(target, lead, word, gap, path, trail)
                   && verb == upper(word) && verb in methods && path[0] == '/'
  {
    if ParseTarget(target, upper, methods) == Some((verb, path)) {
      var lead, gap, trail := SplitIsRead(target);
      assert Reads(target, lead, SplitTarget(target).0, gap, path, trail);
    }
    if lead, word, gap, trail :|
      && Reads(target, lead, word, gap, path, trail)
      && verb == upper(word) && verb in methods && path[0] == '/'
    {
      SplitReads(target, lead, word, gap, path, trail);
    }
  }

  /** The same for some of the methods. */
  lemma ParsesAsOneOfIff(target: string, upper: string -> string, methods: set<string>, some: set<string>)
    requires upper("") !in methods && some <= methods
    ensures ParseTarget(target, upper, methods).Some? && ParseTarget(target, upper, methods).value.0 in some
            <==> exists lead, word, gap, path, trail ::
                   Reads(target, lead, word, gap, path, trail) && upper(word) in some && path[0] == '/'
  {
    var parsed := ParseTarget(target, upper, methods);
    if parsed.Some? {
      ParsesIff(target, upper, methods, parsed.value.0, parsed.value.1);
    }
    if lead, word, gap, path, trail :|
      Reads(target, lead, word, gap, path, trail) && upper(word) in some && path[0] == '/'
    {
      ParsesIff(target, upper, methods, upper(word), path);
    }
  }
}
