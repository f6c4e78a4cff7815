/**
 `ambiguousTarget` and `normalizeWords` of internal/interpreter/rule.go: searching a padded
 string for padded labels is searching the text's words for the label's words.
 */
module LabelMatching {

  /** The Unicode tables: lower-casing of one character, and "is a letter or a number". */
  datatype Tables = Tables(lower: char -> char, isWord: char -> bool)

  /** A space separates words and has no lower case of its own. */
  predicate SpaceSeparates(u: Tables) {
    !u.isWord(' ') && u.lower(' ') == ' '
  }

  ghost predicate LowerIsStable(u: Tables) {
    forall c: char :: u.lower(u.lower(c)) == u.lower(c)
  }

  /* ------------------------------------------------------------------ */
  /* Words                                                              */
  /* ------------------------------------------------------------------ */

  /** `strings.ToLower`. */
  function Lowered(s: string, u: Tables): (r: string)
    ensures |r| == |s| && forall i | 0 <= i < |s| :: r[i] == u.lower(s[i])
  {
    if s == [] then [] else [u.lower(s[0])] + Lowered(s[1..], u)
  }

  /** The length of the word at the start of s. */
  function Run(s: string, u: Tables): (n: nat)
    ensures n <= |s| && (forall i | 0 <= i < n :: u.isWord(s[i])) && (n < |s| ==> !u.isWord(s[n]))
  {
    if s == [] || !u.isWord(s[0]) then 0
    else
      assert s == [s[0]] + s[1..];
      1 + Run(s[1..], u)
  }

  /** `strings.FieldsFunc`: the maximal runs of word characters. */
  function Words(s: string, u: Tables): seq<string>
    decreases |s|
  {
    if s == [] then []
    else if Run(s, u) == 0 then Words(s[1..], u)
    else [s[..Run(s, u)]] + Words(s[Run(s, u)..], u)
  }

  /** `strings.Join` with a space. */
  function Join(words: seq<string>): string {
    if words == [] then ""
    else if |words| == 1 then words[0]
    else words[0] + " " + Join(words[1..])
  }

  /** `normalizeWords`. */
  function Normalize(value: string, u: Tables): string {
    Join(Words(Lowered(value, u), u))
  }

  /** The words of a text, lower-cased. */
  function WordsOf(value: string, u: Tables): seq<string> {
    Words(Lowered(value, u), u)
  }

  ghost predicate Word(w: string, u: Tables) {
    w != "" && forall c | c in w :: u.isWord(c)
  }

  ghost predicate AllWords(words: seq<string>, u: Tables) {
    forall w | w in words :: Word(w, u)
  }

  lemma {:induction false} WordsAreWords(s: string, u: Tables)
    ensures AllWords(Words(s, u), u)
    ensures forall w, c | w in Words(s, u) && c in w :: c in s
    decreases |s|
  {
    if s == [] {
    } else if Run(s, u) == 0 {
      WordsAreWords(s[1..], u);
    } else {
      WordsAreWords(s[Run(s, u)..], u);
    }
  }

  /** A word at the start of a string, up to a separator or the end. */
  lemma {:induction false} RunOfWord(w: string, rest: string, u: Tables)
    requires forall c | c in w :: u.isWord(c)
    requires rest == "" || !u.isWord(rest[0])
    ensures Run(w + rest, u) == |w|
  {
    if w == "" {
      assert w + rest == rest;
    } else {
      assert (w + rest)[1..] == w[1..] + rest;
      RunOfWord(w[1..], rest, u);
    }
  }

  lemma SplitFirst(w: string, rest: string, u: Tables)
    requires Word(w, u) && !u.isWord(' ')
    ensures Words(w, u) == [w] && Words(w + " " + rest, u) == [w] + Words(rest, u)
  {
    RunOfWord(w, "", u);
    assert w + "" == w && w[|w|..] == "" && w[..|w|] == w;
    RunOfWord(w, " " + rest, u);
    var s := w + (" " + rest);
    assert w + " " + rest == s && s[|w|..] == " " + rest && s[..|w|] == w;
    assert (" " + rest)[1..] == rest;
  }

  /** Splitting joined words gives the words back. */
  lemma {:induction false} SplitJoin(words: seq<string>, u: Tables)
    requires AllWords(words, u) && !u.isWord(' ')
    ensures Words(Join(words), u) == words
  {
    if words != [] {
      assert Word(words[0], u);
      SplitFirst(words[0], Join(words[1..]), u);
      SplitJoin(words[1..], u);
      assert words == [words[0]] + words[1..];
    }
  }

  lemma {:induction false} JoinLower(words: seq<string>, u: Tables)
    requires forall i, j | 0 <= i < |words| && 0 <= j < |words[i]| :: u.lower(words[i][j]) == words[i][j]
    requires u.lower(' ') == ' '
    ensures Lowered(Join(words), u) == Join(words)
  {
    if words != [] {
      assert forall j | 0 <= j < |words[0]| :: u.lower(words[0][j]) == words[0][j];
      JoinLower(words[1..], u);
      assert forall j | 0 <= j < |Join(words[1..])| :: u.lower(Join(words[1..])[j]) == Join(words[1..])[j];
      assert forall j | 0 <= j < |Join(words)| :: u.lower(Join(words)[j]) == Join(words)[j];
    }
  }

  lemma LoweredIsStable(value: string, u: Tables)
    requires SpaceSeparates(u) && LowerIsStable(u)
    ensures Lowered(Normalize(value, u), u) == Normalize(value, u)
  {
    var words := WordsOf(value, u);
    WordsAreWords(Lowered(value, u), u);
    forall i, j | 0 <= i < |words| && 0 <= j < |words[i]|
      ensures u.lower(words[i][j]) == words[i][j]
    {
      assert words[i] in words && words[i][j] in words[i];
      assert words[i][j] in Lowered(value, u);
    }
    JoinLower(words, u);
  }

  /** Normalising twice is normalising once, and a normalised string has the words of the original. */
  lemma NormalizeIsIdempotent(value: string, u: Tables)
    requires SpaceSeparates(u) && LowerIsStable(u)
    ensures Normalize(Normalize(value, u), u) == Normalize(value, u)
    ensures WordsOf(Normalize(value, u), u) == WordsOf(value, u)
  {
    LoweredIsStable(value, u);
    WordsAreWords(Lowered(value, u), u);
    SplitJoin(WordsOf(value, u), u);
  }

  /** Two strings normalise alike exactly if they have the same words. */
  lemma SameNormalForm(a: string, b: string, u: Tables)
    requires SpaceSeparates(u)
    ensures Normalize(a, u) == Normalize(b, u) <==> WordsOf(a, u) == WordsOf(b, u)
    ensures Normalize(a, u) == "" <==> WordsOf(a, u) == []
  {
    WordsAreWords(Lowered(a, u), u);
    WordsAreWords(Lowered(b, u), u);
    SplitJoin(WordsOf(a, u), u);
    SplitJoin(WordsOf(b, u), u);
  }

  /* ------------------------------------------------------------------ */
  /* Padded search                                                      */
  /* ------------------------------------------------------------------ */

  predicate StandsAt<T(==)>(part: seq<T>, text: seq<T>, i: nat) {
    i + |part| <= |text| && text[i..i + |part|] == part
  }

  /** The part occurs contiguously: `strings.Contains` on characters, and the meaning of a label on words. */
  predicate Occurs<T(==)>(part: seq<T>, text: seq<T>) {
    exists i | 0 <= i <= |text| :: StandsAt(part, text, i)
  }

  /** Every word with a space behind it. */
  function Body(words: seq<string>): string {
    if words == [] then "" else words[0] + " " + Body(words[1..])
  }

  ghost predicate NoSpaces(words: seq<string>) {
    forall i, j | 0 <= i < |words| && 0 <= j < |words[i]| :: words[i][j] != ' '
  }

  lemma {:induction false} PaddedJoin(words: seq<string>)
    requires words != []
    ensures Join(words) + " " == Body(words)
  {
    if |words| > 1 {
      PaddedJoin(words[1..]);
      assert words[0] + " " + Join(words[1..]) + " " == words[0] + " " + (Join(words[1..]) + " ");
    } else {
      assert words[0] + " " + "" == words[0] + " ";
    }
  }

  lemma {:induction false} BodyConcat(a: seq<string>, b: seq<string>)
    ensures Body(a + b) == Body(a) + Body(b)
  {
    if a == [] {
      assert a + b == b;
    } else {
      assert (a + b)[1..] == a[1..] + b;
      BodyConcat(a[1..], b);
    }
  }

  /** With a space in front the body also ends with a space. */
  lemma {:induction false} EndsWithSpace(words: seq<string>)
    ensures (" " + Body(words))[|Body(words)|] == ' '
  {
    if words != [] {
      EndsWithSpace(words[1..]);
      var rest := Body(words[1..]);
      assert " " + Body(words) == (" " + words[0]) + (" " + rest);
    }
  }

  lemma StandsBehind(x: string, y: string, z: string)
    requires (" " + x)[|x|] == ' '
    ensures StandsAt(" " + y, " " + (x + (y + z)), |x|)
  {
    var hay := " " + (x + (y + z));
    assert hay[|x|] == (" " + x)[|x|];
    assert hay[|x| + 1..] == y + z;
    assert hay[|x|..|x| + 1 + |y|] == " " + y;
  }

  lemma WordsThenSubstring(part: seq<string>, text: seq<string>)
    requires Occurs(part, text)
    ensures Occurs(" " + Body(part), " " + Body(text))
  {
    var k :| 0 <= k <= |text| && StandsAt(part, text, k);
    var before, after := text[..k], text[k + |part|..];
    assert text == before + (part + after);
    BodyConcat(before, part + after);
    BodyConcat(part, after);
    EndsWithSpace(before);
    StandsBehind(Body(before), Body(part), Body(after));
  }

  /** A space behind the first one is not inside the first word. */
  lemma SkipWord(w: string, body: string, i: nat)
    requires ' ' !in w && 0 < i < |" " + (w + " " + body)| && (" " + (w + " " + body))[i] == ' '
    ensures |w| < i && i - 1 - |w| < |" " + body| && (" " + body)[i - 1 - |w|] == ' '
    ensures (" " + (w + " " + body))[i..] == (" " + body)[i - 1 - |w|..]
  {
    var hay := " " + (w + " " + body);
    assert forall j | 0 < j <= |w| :: hay[j] == w[j - 1];
    assert hay == (" " + w) + (" " + body);
  }

  /** Every space of the padded text is where a word starts or the text ends. */
  lemma {:induction false} SpaceIsBoundary(text: seq<string>, i: nat) returns (k: nat)
    requires NoSpaces(text) && i < |" " + Body(text)| && (" " + Body(text))[i] == ' '
    ensures k <= |text| && (" " + Body(text))[i..] == " " + Body(text[k..])
  {
    k := 0;
    if i > 0 {
      var rest := text[1..];
      assert ' ' !in text[0];
      SkipWord(text[0], Body(rest), i);
      var j := SpaceIsBoundary(rest, i - 1 - |text[0]|);
      k := j + 1;
      assert text[k..] == rest[j..];
    }
  }

  lemma FirstSpace(w: string, rest: string, i: nat)
    requires ' ' !in w && i <= |w|
    ensures (w + " " + rest)[i] == ' ' <==> i == |w|
  {
  }

  /** The first word of a body is what stands before the first space. */
  lemma FirstWord(w: string, x: string, v: string, y: string)
    requires ' ' !in w && ' ' !in v && w + " " + x <= v + " " + y
    ensures w == v && x <= y
  {
    var a, b := w + " " + x, v + " " + y;
    FirstSpace(w, x, |w|);
    FirstSpace(v, y, |v|);
    if |w| <= |v| {
      FirstSpace(v, y, |w|);
    } else {
      FirstSpace(w, x, |v|);
    }
    assert w == a[..|w|] == b[..|w|] == v;
    assert x == a[|w| + 1..] && y == b[|w| + 1..];
  }

  lemma {:induction false} BodyPrefix(part: seq<string>, text: seq<string>)
    requires NoSpaces(part) && NoSpaces(text) && Body(part) <= Body(text)
    ensures part <= text
  {
    if part != [] {
      assert text != [];
      assert Body(part) == part[0] + " " + Body(part[1..]) && Body(text) == text[0] + " " + Body(text[1..]);
      assert ' ' !in part[0] && ' ' !in text[0];
      FirstWord(part[0], Body(part[1..]), text[0], Body(text[1..]));
      BodyPrefix(part[1..], text[1..]);
      assert part == [part[0]] + part[1..] && text == [text[0]] + text[1..];
    }
  }

  lemma SubstringThenWords(part: seq<string>, text: seq<string>)
    requires NoSpaces(part) && NoSpaces(text)
    requires Occurs(" " + Body(part), " " + Body(text))
    ensures Occurs(part, text)
  {
    var hay, needle := " " + Body(text), " " + Body(part);
    var i :| 0 <= i <= |hay| && StandsAt(needle, hay, i);
    assert hay[i] == needle[0];
    var k := SpaceIsBoundary(text, i);
    assert needle <= hay[i..];
    assert Body(part) == needle[1..] && Body(text[k..]) == hay[i..][1..];
    BodyPrefix(part, text[k..]);
    assert StandsAt(part, text, k);
  }

  lemma WordsHaveNoSpaces(words: seq<string>, u: Tables)
    requires AllWords(words, u) && !u.isWord(' ')
    ensures NoSpaces(words)
  {
    forall i, j | 0 <= i < |words| && 0 <= j < |words[i]|
      ensures words[i][j] != ' '
    {
      assert Word(words[i], u) && words[i][j] in words[i];
    }
  }

  /** The padded-substring test of the program is the test for a contiguous run of words. */
  lemma PaddedSearch(part: string, text: string, u: Tables)
    requires SpaceSeparates(u) && Normalize(part, u) != ""
    ensures Occurs(" " + Normalize(part, u) + " ", " " + Normalize(text, u) + " ")
        <==> Occurs(WordsOf(part, u), WordsOf(text, u))
  {
    var p, t := WordsOf(part, u), WordsOf(text, u);
    SameNormalForm(part, part, u);
    WordsAreWords(Lowered(part, u), u);
    WordsAreWords(Lowered(text, u), u);
    WordsHaveNoSpaces(p, u);
    WordsHaveNoSpaces(t, u);
    PaddedJoin(p);
    assert " " + Join(p) + " " == " " + Body(p);
    if t == [] {
      assert p[0] != "" by { assert Word(p[0], u); }
      assert |" " + Join(p) + " "| > 2;
    } else {
      PaddedJoin(t);
      assert " " + Join(t) + " " == " " + Body(t);
      if Occurs(p, t) {
        WordsThenSubstring(p, t);
      }
      if Occurs(" " + Body(p), " " + Body(t)) {
        SubstringThenWords(p, t);
      }
    }
  }

  /* ------------------------------------------------------------------ */
  /* Ambiguous targets                                                  */
  /* ------------------------------------------------------------------ */

  /** Devices i and j are called by the same words, and the text says them. */
  predicate BothNamed(text: string, labels: seq<string>, i: nat, j: nat, u: Tables)
    requires i < j < |labels|
  {
    WordsOf(labels[i], u) == WordsOf(labels[j], u) != [] && Occurs(WordsOf(labels[i], u), WordsOf(text, u))
  }

  predicate Ambiguous(text: string, labels: seq<string>, u: Tables) {
    exists i, j | 0 <= i < j < |labels| :: BothNamed(text, labels, i, j, u)
  }

  /** How many of the labels normalise to this one. */
  function Bearers(labels: seq<string>, name: string, u: Tables): nat {
    if labels == [] then 0
    else Bearers(labels[..|labels| - 1], name, u) + if Normalize(labels[|labels| - 1], u) == name then 1 else 0
  }

  ghost predicate Bears(labels: seq<string>, i: nat, name: string, u: Tables) {
    i < |labels| && Normalize(labels[i], u) == name
  }

  lemma {:induction false} OneBearer(labels: seq<string>, i: nat, name: string, u: Tables)
    requires Bears(labels, i, name, u)
    ensures Bearers(labels, name, u) > 0
  {
    if i < |labels| - 1 {
      OneBearer(labels[..|labels| - 1], i, name, u);
    }
  }

  lemma {:induction false} TwoBearers(labels: seq<string>, i: nat, j: nat, name: string, u: Tables)
    requires i < j && Bears(labels, i, name, u) && Bears(labels, j, name, u)
    ensures Bearers(labels, name, u) > 1
  {
    var front := labels[..|labels| - 1];
    if j < |labels| - 1 {
      TwoBearers(front, i, j, name, u);
    } else {
      OneBearer(front, i, name, u);
    }
  }

  lemma {:induction false} FindBearer(labels: seq<string>, name: string, u: Tables) returns (i: nat)
    requires Bearers(labels, name, u) > 0
    ensures Bears(labels, i, name, u)
  {
    i := |labels| - 1;
    if Normalize(labels[i], u) != name {
      i := FindBearer(labels[..|labels| - 1], name, u);
    }
  }

  lemma {:induction false} FindTwoBearers(labels: seq<string>, name: string, u: Tables) returns (i: nat, j: nat)
    requires Bearers(labels, name, u) > 1
    ensures i < j && Bears(labels, i, name, u) && Bears(labels, j, name, u)
  {
    var front := labels[..|labels| - 1];
    j := |labels| - 1;
    if Normalize(labels[j], u) == name {
      i := FindBearer(front, name, u);
    } else {
      i, j := FindTwoBearers(front, name, u);
    }
  }

  /** A label borne twice that the padded text contains: what the program looks for. */
  ghost predicate Hit(text: string, labels: seq<string>, name: string, u: Tables) {
    name != "" && Bearers(labels, name, u) > 1 && Occurs(" " + name + " ", " " + Normalize(text, u) + " ")
  }

  lemma HitIsAmbiguous(text: string, labels: seq<string>, name: string, u: Tables)
    requires SpaceSeparates(u) && Hit(text, labels, name, u)
    ensures Ambiguous(text, labels, u)
  {
    var i, j := FindTwoBearers(labels, name, u);
    SameNormalForm(labels[i], labels[j], u);
    PaddedSearch(labels[i], text, u);
    assert BothNamed(text, labels, i, j, u);
  }

  lemma AmbiguousIsHit(text: string, labels: seq<string>, u: Tables) returns (name: string)
    requires SpaceSeparates(u) && Ambiguous(text, labels, u)
    ensures Hit(text, labels, name, u)
  {
    var i, j :| 0 <= i < j < |labels| && BothNamed(text, labels, i, j, u);
    name := Normalize(labels[i], u);
    SameNormalForm(labels[i], labels[j], u);
    PaddedSearch(labels[i], text, u);
    TwoBearers(labels, i, j, name, u);
  }

  /**
   `ambiguousTarget`: true exactly when two devices share their words and the text says them, in
   whatever order the map of counts is walked.
   */
  method AmbiguousTarget(text: string, labels: seq<string>, u: Tables) returns (ambiguous: bool)
    requires SpaceSeparates(u)
    ensures ambiguous <==> Ambiguous(text, labels, u)
  {
    var counts: map<string, nat> := map[];
    for i := 0 to |labels|
      invariant "" !in counts
      invariant forall name | name != "" :: Bearers(labels[..i], name, u) == if name in counts then counts[name] else 0
    {
      assert labels[..i + 1][..i] == labels[..i];
      var name := Normalize(labels[i], u);
      if name != "" {
        counts := counts[name := (if name in counts then counts[name] else 0) + 1];
      }
    }
    assert labels[..|labels|] == labels;
    var normalized := " " + Normalize(text, u) + " ";
    var todo := counts.Keys;
    while todo != {}
      invariant todo <= counts.Keys
      invariant forall name | name in counts && name !in todo :: !Hit(text, labels, name, u)
    {
      var name :| name in todo;
      if counts[name] > 1 && Occurs(" " + name + " ", normalized) {
        HitIsAmbiguous(text, labels, name, u);
        return true;
      }
      todo := todo - {name};
    }
    if Ambiguous(text, labels, u) {
      var name := AmbiguousIsHit(text, labels, u);
    }
    return false;
  }

  /** Spelling does not matter: normalising the text or the labels first changes nothing. */
  lemma SpellingDoesNotMatter(text: string, labels: seq<string>, normal: seq<string>, u: Tables)
    requires SpaceSeparates(u) && LowerIsStable(u)
    requires |normal| == |labels| && forall i | 0 <= i < |labels| :: normal[i] == Normalize(labels[i], u)
    ensures Ambiguous(Normalize(text, u), normal, u) <==> Ambiguous(text, labels, u)
  {
    NormalizeIsIdempotent(text, u);
    forall i | 0 <= i < |labels|
      ensures WordsOf(normal[i], u) == WordsOf(labels[i], u)
    {
      NormalizeIsIdempotent(labels[i], u);
    }
    assert forall i, j | 0 <= i < j < |labels| ::
        (BothNamed(Normalize(text, u), normal, i, j, u) <==> BothNamed(text, labels, i, j, u));
  }
}
