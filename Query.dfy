/** The query language of `parse_smart_search`: one free-text query becomes a
    filter set. Three tokens are recognised, in this order, each in what the
    previous step left of the query: `nom:<word>` (the name filter),
    `type:.<word>` (the extension filter) and `taille<op><digits>` (a size
    bound in KiB). Each step is a `re.search` that captures the first match,
    then a `re.sub` that deletes every match, then `str.strip()`. What is left
    at the end is the keyword. */
module Query {
  import opened Wrappers
  import opened Text

  /** The patterns `nom:(\w+)`, `type:(\.\w+)` and `taille([><=])(\d+)`. */
  datatype Token = NameToken | TypeToken | SizeToken

  /** The literal text a match starts with. */
  function Lead(t: Token): string {
    match t
    case NameToken => "nom:"
    case TypeToken => "type:."
    case SizeToken => "taille"
  }

  /** Offset, from the start of a match, of its greedy `\w+` or `\d+` run. */
  function RunStart(t: Token): nat {
    match t
    case NameToken => 4
    case TypeToken => 6
    case SizeToken => 7
  }

  /** Offset, from the start of a match, of the captured groups: the word, the
      dotted extension, or the comparison operator followed by the digits. */
  function GroupStart(t: Token): nat {
    match t
    case NameToken => 4
    case TypeToken => 5
    case SizeToken => 6
  }

  predicate IsSizeOp(c: char) {
    c == '>' || c == '<' || c == '='
  }

  /** The character class of the token's trailing run. */
  predicate InRun(t: Token, c: char) {
    if t == SizeToken then IsDigit(c) else IsWordChar(c)
  }

  /** The token's pattern matches in `s` starting at index `i`. */
  predicate MatchesAt(t: Token, s: string, i: nat) {
    && i + RunStart(t) < |s|
    && LiteralAt(s, i, Lead(t))
    && (t == SizeToken ==> IsSizeOp(s[i + 6]))
    && InRun(t, s[i + RunStart(t)])
  }

  /** The character `lit[k]` of a literal found at `i` is `s[i + k]`. */
  lemma {:induction false} LiteralAtChar(s: string, i: nat, lit: string, k: nat)
    requires LiteralAt(s, i, lit) && k < |lit|
    ensures i + k < |s| && s[i + k] == lit[k]
    decreases k
  {
    if k > 0 {
      LiteralAtChar(s, i + 1, lit[1..], k - 1);
    }
  }

  /** The same, as an implication that holds whether or not the literal is
      there. */
  lemma LiteralAtImplies(s: string, i: nat, lit: string, k: nat)
    requires k < |lit|
    ensures LiteralAt(s, i, lit) ==> i + k < |s| && s[i + k] == lit[k]
  {
    if LiteralAt(s, i, lit) {
      LiteralAtChar(s, i, lit, k);
    }
  }

  /** The end of the longest run of the token's class starting at `k`. */
  function RunEnd(t: Token, s: string, k: nat): (r: nat)
    requires k <= |s|
    ensures k <= r <= |s|
    ensures forall j :: k <= j < r ==> InRun(t, s[j])
    ensures r == |s| || !InRun(t, s[r])
    decreases |s| - k
  {
    if k < |s| && InRun(t, s[k]) then RunEnd(t, s, k + 1) else k
  }

  /** Where a match starting at `i` ends: the run is greedy. */
  function MatchEnd(t: Token, s: string, i: nat): (e: nat)
    requires MatchesAt(t, s, i)
    ensures i + RunStart(t) < e <= |s|
  {
    RunEnd(t, s, i + RunStart(t))
  }

  /** `re.search` from index `from`: the leftmost match at or after `from`. */
  function FindFirst(t: Token, s: string, from: nat): (r: Option<nat>)
    ensures r.Some? ==> from <= r.value && MatchesAt(t, s, r.value)
    ensures r.Some? ==> forall j :: from <= j < r.value ==> !MatchesAt(t, s, j)
    ensures r.None? ==> forall j: nat :: from <= j ==> !MatchesAt(t, s, j)
    decreases |s| - from
  {
    if from >= |s| then None
    else if MatchesAt(t, s, from) then Some(from)
    else FindFirst(t, s, from + 1)
  }

  /** `re.sub(pattern, '', s[i..])`: scanning left to right, every match is
      deleted and scanning resumes right after it; other characters are kept. */
  function RemoveFrom(t: Token, s: string, i: nat): string
    decreases |s| - i
  {
    if i >= |s| then []
    else if MatchesAt(t, s, i) then RemoveFrom(t, s, MatchEnd(t, s, i))
    else [s[i]] + RemoveFrom(t, s, i + 1)
  }

  /** Text in which the pattern does not match is kept verbatim. */
  lemma {:induction false} RemoveKeepsUnmatched(t: Token, s: string, from: nat, i: nat)
    requires from <= i <= |s|
    requires forall j :: from <= j < i ==> !MatchesAt(t, s, j)
    ensures RemoveFrom(t, s, from) == s[from..i] + RemoveFrom(t, s, i)
    decreases i - from
  {
    if from < i {
      var rest := RemoveFrom(t, s, i);
      assert RemoveFrom(t, s, from) == [s[from]] + RemoveFrom(t, s, from + 1) by {
        assert !MatchesAt(t, s, from);
      }
      RemoveKeepsUnmatched(t, s, from + 1, i);
      assert s[from..i] == [s[from]] + s[from + 1..i];
      assert [s[from]] + (s[from + 1..i] + rest) == ([s[from]] + s[from + 1..i]) + rest;
    }
  }

  /** `re.sub` deletes the very match `re.search` finds: the text before it
      is kept verbatim, the match is dropped, and substitution resumes right
      after it; with no match the text is unchanged. */
  lemma SubstitutionDropsFirstMatch(t: Token, s: string, from: nat)
    requires from <= |s|
    ensures FindFirst(t, s, from).None? ==> RemoveFrom(t, s, from) == s[from..]
    ensures FindFirst(t, s, from).Some? ==>
              var i := FindFirst(t, s, from).value;
              RemoveFrom(t, s, from) == s[from..i] + RemoveFrom(t, s, MatchEnd(t, s, i))
  {
    match FindFirst(t, s, from)
    case None =>
      RemoveKeepsUnmatched(t, s, from, |s|);
    case Some(i) =>
      RemoveKeepsUnmatched(t, s, from, i);
  }

  /** What a captured group looks like: a word for `nom:`, a dot and a word
      for `type:`, a comparison operator and a numeral for `taille`. */
  predicate WellFormedGroup(t: Token, g: string) {
    match t
    case NameToken => |g| >= 1 && forall j :: 0 <= j < |g| ==> IsWordChar(g[j])
    case TypeToken => |g| >= 2 && g[0] == '.' && forall j :: 1 <= j < |g| ==> IsWordChar(g[j])
    case SizeToken => |g| >= 2 && IsSizeOp(g[0]) && IsNumeral(g[1..])
  }

  /** The outcome of one step of the parser: the captured group, if the token
      matched, and the query that the next step works on. */
  datatype Extraction = Extraction(group: Option<string>, rest: string)

  /** One step: capture the first match, then delete every match and strip
      the result. When nothing matches, the query is passed on untouched
      (not even stripped). */
  function Extract(t: Token, q: string): (e: Extraction)
    ensures e.group.None? <==> forall i: nat :: !MatchesAt(t, q, i)
    ensures e.group.None? ==> e.rest == q
    ensures e.group.Some? ==> WellFormedGroup(t, e.group.value)
  {
    match FindFirst(t, q, 0)
    case None => Extraction(None, q)
    case Some(i) =>
      var end := MatchEnd(t, q, i);
      var g := q[i + GroupStart(t)..end];
      assert WellFormedGroup(t, g) by {
        if t == TypeToken {
          LiteralAtChar(q, i, Lead(t), 5);
        }
        assert t == SizeToken ==> g[1..] == q[i + 7..end];
      }
      Extraction(Some(g), Strip(RemoveFrom(t, q, 0)))
  }

  /** A step captures the group of the leftmost match, and the query it passes
      on is the text before that match followed by what `re.sub` leaves of the
      text after it, stripped. */
  lemma ExtractCapturesFirstMatch(t: Token, q: string, i: nat)
    requires MatchesAt(t, q, i)
    requires forall j :: 0 <= j < i ==> !MatchesAt(t, q, j)
    ensures Extract(t, q).group == Some(q[i + GroupStart(t)..MatchEnd(t, q, i)])
    ensures Extract(t, q).rest == Strip(q[..i] + RemoveFrom(t, q, MatchEnd(t, q, i)))
  {
    assert FindFirst(t, q, 0) == Some(i);
    SubstitutionDropsFirstMatch(t, q, 0);
  }

  /** The filter dictionary: optional `name`, `extension`, `min_size` and
      `max_size` entries (sizes as the digit strings the query held), and the
      `keyword` entry, which is always present. */
  datatype Filters = Filters(
    name: Option<string>,
    extension: Option<string>,
    minSize: Option<string>,
    maxSize: Option<string>,
    keyword: string)
  {
    /** `int()` accepts both size bounds. */
    predicate SizesAreNumerals() {
      && (minSize.Some? ==> IsNumeral(minSize.value))
      && (maxSize.Some? ==> IsNumeral(maxSize.value))
    }
  }

  /** The digits of a size group whose operator is `op`. */
  function SizeBound(group: Option<string>, op: char): Option<string> {
    if group.Some? && |group.value| > 0 && group.value[0] == op then Some(group.value[1..]) else None
  }

  /** `parse_smart_search`: the parser has no failure mode. The `=` operator
      is matched and removed but sets no bound, so at most one bound is set. */
  function ParseSmartSearch(query: string): (f: Filters)
    ensures f.SizesAreNumerals()
    ensures f.minSize.None? || f.maxSize.None?
    ensures f.name.Some? ==> WellFormedGroup(NameToken, f.name.value)
    ensures f.extension.Some? ==> WellFormedGroup(TypeToken, f.extension.value)
  {
    var byName := Extract(NameToken, query);
    var byType := Extract(TypeToken, byName.rest);
    var bySize := Extract(SizeToken, byType.rest);
    Filters(byName.group, byType.group, SizeBound(bySize.group, '>'), SizeBound(bySize.group, '<'), bySize.rest)
  }

  /** A query holding none of the three tokens is all keyword, verbatim. */
  lemma ParseWithoutTokens(query: string)
    requires forall i: nat :: !MatchesAt(NameToken, query, i)
    requires forall i: nat :: !MatchesAt(TypeToken, query, i)
    requires forall i: nat :: !MatchesAt(SizeToken, query, i)
    ensures ParseSmartSearch(query) == Filters(None, None, None, None, query)
  {
  }

  /** The name filter is the word of the leftmost `nom:` match. */
  lemma ParseNameIsFirstMatch(query: string, i: nat)
    requires MatchesAt(NameToken, query, i)
    requires forall j :: 0 <= j < i ==> !MatchesAt(NameToken, query, j)
    ensures ParseSmartSearch(query).name == Some(query[i + 4..MatchEnd(NameToken, query, i)])
  {
    ExtractCapturesFirstMatch(NameToken, query, i);
  }

  /** The greedy run starting at `k` ends at `e` exactly when the characters
      in between belong to the class and the one at `e` (if any) does not. */
  lemma {:induction false} RunEndIs(t: Token, s: string, k: nat, e: nat)
    requires k <= e <= |s|
    requires forall j :: k <= j < e ==> InRun(t, s[j])
    requires e == |s| || !InRun(t, s[e])
    ensures RunEnd(t, s, k) == e
    decreases e - k
  {
    if k < e {
      RunEndIs(t, s, k + 1, e);
    }
  }

  /** A query in which the token matches once, at `i`, up to index `e`: the
      step yields the group `g` and the stripped remainder `r`. */
  lemma ExtractOnce(t: Token, q: string, i: nat, e: nat, g: string, r: string)
    requires MatchesAt(t, q, i)
    requires forall j :: 0 <= j < i ==> !MatchesAt(t, q, j)
    requires i + RunStart(t) <= e <= |q|
    requires forall j :: i + RunStart(t) <= j < e ==> InRun(t, q[j])
    requires e == |q| || !InRun(t, q[e])
    requires forall j :: e <= j < |q| ==> !MatchesAt(t, q, j)
    requires g == q[i + GroupStart(t)..e] && r == Strip(q[..i] + q[e..])
    ensures Extract(t, q) == Extraction(Some(g), r)
  {
    RunEndIs(t, q, i + RunStart(t), e);
    ExtractCapturesFirstMatch(t, q, i);
    SubstitutionDropsFirstMatch(t, q, e);
  }

  /** Whether the pattern matches at a position does not depend on the text
      before that position. */
  lemma MatchesAtShift(t: Token, p: string, s: string, j: nat)
    ensures MatchesAt(t, p + s, |p| + j) == MatchesAt(t, s, j)
  {
    LiteralAtShift(p, s, j, Lead(t));
  }

  /** In a token, a space and a rest in which the token does not occur, the
      token matches nowhere after its own run. */
  lemma NoMatchAfterRun(t: Token, m: string, k: string)
    requires forall j: nat :: !MatchesAt(t, k, j)
    ensures forall j :: |Lead(t)| + |m| <= j < |Lead(t) + m + " " + k| ==> !MatchesAt(t, Lead(t) + m + " " + k, j)
  {
    var p := Lead(t) + m + " ";
    var q := p + k;
    forall j | |p| - 1 <= j < |q|
      ensures !MatchesAt(t, q, j)
    {
      if j == |p| - 1 {
        if MatchesAt(t, q, j) {
          LiteralAtChar(q, j, Lead(t), 0);
          assert false;
        }
      } else {
        MatchesAtShift(t, p, k, j - |p|);
      }
    }
  }

  /** The token at the front of a token, a space and a rest matches there
      and its run ends at the space. */
  lemma LeadingMatch(t: Token, m: string, k: string)
    requires |Lead(t)| + |m| > RunStart(t)
    requires t == SizeToken ==> IsSizeOp(m[0])
    requires forall j :: RunStart(t) - |Lead(t)| <= j < |m| ==> InRun(t, m[j])
    ensures MatchesAt(t, Lead(t) + m + " " + k, 0)
    ensures forall j :: RunStart(t) <= j < |Lead(t)| + |m| ==> InRun(t, (Lead(t) + m + " " + k)[j])
    ensures !InRun(t, (Lead(t) + m + " " + k)[|Lead(t)| + |m|])
  {
    var q := Lead(t) + m + " " + k;
    var e := |Lead(t)| + |m|;
    assert q[e] == ' ';
    forall j | RunStart(t) <= j < e
      ensures InRun(t, q[j])
    {
      assert q[j] == m[j - |Lead(t)|];
    }
    assert q[..e] == Lead(t) + m;
    LiteralAtFromChars(q, 0, Lead(t));
  }

  /** A query made of a token, a space and a rest in which the token does not
      occur: the step captures the token's group and passes the rest on. */
  lemma ExtractLeading(t: Token, m: string, k: string)
    requires |Lead(t)| + |m| > RunStart(t)
    requires t == SizeToken ==> IsSizeOp(m[0])
    requires forall j :: RunStart(t) - |Lead(t)| <= j < |m| ==> InRun(t, m[j])
    requires forall j: nat :: !MatchesAt(t, k, j)
    requires k != [] && IsWordChar(k[0]) && IsWordChar(k[|k| - 1])
    ensures Extract(t, Lead(t) + m + " " + k) == Extraction(Some((Lead(t) + m)[GroupStart(t)..]), k)
  {
    var q := Lead(t) + m + " " + k;
    var e := |Lead(t)| + |m|;
    var g := (Lead(t) + m)[GroupStart(t)..];
    assert q[GroupStart(t)..e] == g;
    assert Strip(q[..0] + q[e..]) == k by {
      assert q[..0] + q[e..] == " " + k;
      StripSpaceBeforeWord(k);
    }
    LeadingMatch(t, m, k);
    NoMatchAfterRun(t, m, k);
    ExtractOnce(t, q, 0, e, g, k);
  }

  /** The token matches nowhere in `p + s` when it matches nowhere in `s` and
      no position of `p` holds both the lead's first character and, `h`
      further on, the lead's character `h`. */
  lemma NoMatchSplit(t: Token, p: string, s: string, h: nat)
    requires 0 < h < |Lead(t)|
    requires forall j :: 0 <= j < |p| && j + h < |p + s| ==>
               (p + s)[j] != Lead(t)[0] || (p + s)[j + h] != Lead(t)[h]
    requires forall j: nat :: !MatchesAt(t, s, j)
    ensures forall j: nat :: !MatchesAt(t, p + s, j)
  {
    forall j: nat | MatchesAt(t, p + s, j)
      ensures false
    {
      if j < |p| {
        LiteralAtChar(p + s, j, Lead(t), 0);
        LiteralAtChar(p + s, j, Lead(t), h);
      } else {
        MatchesAtShift(t, p, s, j - |p|);
      }
    }
  }

  /** No `nom:` token in `type:.<x> <k>` when `k` has none and its first two
      characters are not colons. */
  lemma NoNameAfterType(x: string, k: string)
    requires forall j :: 0 <= j < |x| ==> IsWordChar(x[j])
    requires |k| >= 2 && k[0] != ':' && k[1] != ':'
    requires forall j: nat :: !MatchesAt(NameToken, k, j)
    ensures forall j: nat :: !MatchesAt(NameToken, "type:." + x + " " + k, j)
  {
    var p := "type:." + x + " ";
    forall j | 0 <= j < |p| && j + 3 < |p + k|
      ensures (p + k)[j] != 'n' || (p + k)[j + 3] != ':'
    {
      if 6 <= j < 6 + |x| {
        if j + 3 < 6 + |x| {
          assert (p + k)[j + 3] == x[j + 3 - 6];
        } else if j + 3 > 6 + |x| {
          assert (p + k)[j + 3] == k[j + 3 - |p|];
        }
      }
    }
    assert Lead(NameToken)[0] == 'n' && Lead(NameToken)[3] == ':';
    assert "type:." + x + " " + k == p + k;
    NoMatchSplit(NameToken, p, k, 3);
  }

  /** Neither a `nom:` nor a `type:.` token in `taille<c><d> <k>` when `k`
      has neither. */
  lemma NoTokenAfterSize(c: char, d: string, k: string)
    requires IsSizeOp(c) && IsNumeral(d)
    requires forall j: nat :: !MatchesAt(NameToken, k, j)
    requires forall j: nat :: !MatchesAt(TypeToken, k, j)
    ensures forall j: nat :: !MatchesAt(NameToken, "taille" + ([c] + d) + " " + k, j)
    ensures forall j: nat :: !MatchesAt(TypeToken, "taille" + ([c] + d) + " " + k, j)
  {
    var p := "taille" + ([c] + d) + " ";
    forall j | 0 <= j < |p|
      ensures (p + k)[j] != 'n' && ((p + k)[j] != 't' || j == 0)
    {
      if 7 <= j < 7 + |d| {
        assert (p + k)[j] == d[j - 7];
      }
    }
    assert "taille" + ([c] + d) + " " + k == p + k;
    assert Lead(NameToken)[0] == 'n' && Lead(TypeToken)[0] == 't' && Lead(TypeToken)[1] == 'y';
    NoMatchSplit(NameToken, p, k, 1);
    NoMatchSplit(TypeToken, p, k, 1);
  }

  /** `nom:<w> <k>` yields the name `w` and passes `k` on. */
  lemma ExtractNameToken(w: string, k: string)
    requires |w| > 0 && forall j :: 0 <= j < |w| ==> IsWordChar(w[j])
    requires forall j: nat :: !MatchesAt(NameToken, k, j)
    requires k != [] && IsWordChar(k[0]) && IsWordChar(k[|k| - 1])
    ensures Extract(NameToken, "nom:" + w + " " + k) == Extraction(Some(w), k)
  {
    ExtractLeading(NameToken, w, k);
    DropFromConcat(Lead(NameToken), w, 4);
  }

  /** `type:.<x> <k>` yields the extension `.x` and passes `k` on. */
  lemma ExtractTypeToken(x: string, k: string)
    requires |x| > 0 && forall j :: 0 <= j < |x| ==> IsWordChar(x[j])
    requires forall j: nat :: !MatchesAt(TypeToken, k, j)
    requires k != [] && IsWordChar(k[0]) && IsWordChar(k[|k| - 1])
    ensures Extract(TypeToken, "type:." + x + " " + k) == Extraction(Some("." + x), k)
  {
    assert Lead(TypeToken)[5..] == ".";
    ExtractLeading(TypeToken, x, k);
    DropFromConcat(Lead(TypeToken), x, 5);
  }

  /** `taille<c><d> <k>` yields the size group `<c><d>` and passes `k` on. */
  lemma ExtractSizeToken(c: char, d: string, k: string)
    requires IsSizeOp(c) && IsNumeral(d)
    requires forall j: nat :: !MatchesAt(SizeToken, k, j)
    requires k != [] && IsWordChar(k[0]) && IsWordChar(k[|k| - 1])
    ensures Extract(SizeToken, "taille" + ([c] + d) + " " + k) == Extraction(Some([c] + d), k)
  {
    ExtractLeading(SizeToken, [c] + d, k);
    DropFromConcat(Lead(SizeToken), [c] + d, 6);
  }

  /** The parser chains its three steps. */
  lemma ParseChain(q: string, name: Option<string>, k1: string, ext: Option<string>, k2: string,
                   size: Option<string>, kw: string)
    requires Extract(NameToken, q) == Extraction(name, k1)
    requires Extract(TypeToken, k1) == Extraction(ext, k2)
    requires Extract(SizeToken, k2) == Extraction(size, kw)
    ensures ParseSmartSearch(q) == Filters(name, ext, SizeBound(size, '>'), SizeBound(size, '<'), kw)
  {
  }

  /** A query that holds the three tokens once each, in the parser's order,
      followed by a keyword free of tokens, parses into its parts: the word,
      the dotted extension, the bound the operator selects, and the keyword.
      `nom:rapport type:.txt taille>1000 facture` is the instance with word
      `rapport`, extension `txt`, operator `>`, digits `1000` and keyword
      `facture`. */
  lemma ParseCanonicalQuery(w: string, x: string, c: char, d: string, kw: string)
    requires |w| > 0 && forall j :: 0 <= j < |w| ==> IsWordChar(w[j])
    requires |x| > 0 && forall j :: 0 <= j < |x| ==> IsWordChar(x[j])
    requires IsSizeOp(c) && IsNumeral(d)
    requires forall t: Token, j: nat :: !MatchesAt(t, kw, j)
    requires kw != [] && IsWordChar(kw[0]) && IsWordChar(kw[|kw| - 1])
    ensures ParseSmartSearch("nom:" + w + " " + ("type:." + x + " " + ("taille" + ([c] + d) + " " + kw)))
         == Filters(Some(w), Some("." + x),
                    if c == '>' then Some(d) else None,
                    if c == '<' then Some(d) else None,
                    kw)
  {
    var k2 := "taille" + ([c] + d) + " " + kw;
    var k1 := "type:." + x + " " + k2;
    NoTokenAfterSize(c, d, kw);
    NoNameAfterType(x, k2);
    ExtractNameToken(w, k1);
    ExtractTypeToken(x, k2);
    ExtractSizeToken(c, d, kw);
    assert ([c] + d)[1..] == d;
    ParseChain("nom:" + w + " " + k1, Some(w), k1, Some("." + x), k2, Some([c] + d), kw);
  }
}
