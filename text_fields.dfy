/** The field-extraction helpers of the three Daft scrapers: the property id
    at the end of a listing URL, the two ways of reading a number out of a
    text, the county found in a title, and the URL of a listing card.

    Regular expressions are modelled by the match they find: Python's
    `re.search` returns the leftmost position at which the pattern matches,
    and for the patterns used here the greedy runs (`\d+`, `\s+`,
    `[A-Za-z]+`) always end where the run of such characters ends. */
module TextFields {
  import opened Common

  // ------------------------------------------------------------ character runs

  /** Length of the run of digits that ends `s`. */
  function TrailingDigits(s: string): (k: nat)
    ensures k <= |s| && AllDigits(s[|s| - k..])
    ensures k < |s| ==> !IsDigit(s[|s| - k - 1])
    decreases |s|
  {
    if s == [] || !IsDigit(s[|s| - 1]) then 0
    else
      var t := s[..|s| - 1];
      var k := TrailingDigits(t);
      var u, v := s[|s| - (k + 1)..], t[|t| - k..];
      assert AllDigits(u) by {
        forall i | 0 <= i < k ensures IsDigit(u[i]) {
          assert u[i] == v[i];
        }
      }
      assert k + 1 < |s| ==> s[|s| - (k + 1) - 1] == t[|t| - k - 1];
      k + 1
  }

  /** The trailing digit run is determined by where it stops. */
  lemma {:induction false} TrailingDigitsIs(s: string, k: nat)
    requires k <= |s| && AllDigits(s[|s| - k..])
    requires k < |s| ==> !IsDigit(s[|s| - k - 1])
    ensures TrailingDigits(s) == k
    decreases k
  {
    if k > 0 {
      var tail := s[|s| - k..];
      assert IsDigit(tail[k - 1]) && tail[k - 1] == s[|s| - 1];
      var t := s[..|s| - 1];
      var ttail := t[|t| - (k - 1)..];
      forall m | 0 <= m < k - 1 ensures IsDigit(ttail[m]) {
        assert ttail[m] == tail[m];
      }
      if k - 1 < |t| {
        assert t[|t| - (k - 1) - 1] == s[|s| - k - 1];
      }
      TrailingDigitsIs(t, k - 1);
    }
  }

  /** Index of the first digit of `s` at or after `i` (|s| when there is none). */
  function NextDigit(s: string, i: nat): (j: nat)
    requires i <= |s|
    ensures i <= j <= |s|
    ensures forall m :: i <= m < j ==> !IsDigit(s[m])
    ensures j < |s| ==> IsDigit(s[j])
    decreases |s| - i
  {
    if i == |s| || IsDigit(s[i]) then i else NextDigit(s, i + 1)
  }

  /** End of the run of characters satisfying `p` that starts at `i`. */
  function RunEnd(s: string, i: nat, p: char -> bool): (j: nat)
    requires i <= |s|
    ensures i <= j <= |s|
    ensures forall m :: i <= m < j ==> p(s[m])
    ensures j < |s| ==> !p(s[j])
    decreases |s| - i
  {
    if i == |s| || !p(s[i]) then i else RunEnd(s, i + 1, p)
  }

  /** The first digit at or after `i` is the one at `p` when none comes before it. */
  lemma {:induction false} NextDigitIs(s: string, i: nat, p: nat)
    requires i <= p < |s| && IsDigit(s[p])
    requires forall m :: i <= m < p ==> !IsDigit(s[m])
    ensures NextDigit(s, i) == p
    decreases p - i
  {
    if i < p {
      NextDigitIs(s, i + 1, p);
    }
  }

  /** A run is determined by where it stops. */
  lemma {:induction false} RunEndIs(s: string, i: nat, p: char -> bool, j: nat)
    requires i <= j <= |s|
    requires forall m :: i <= m < j ==> p(s[m])
    requires j < |s| ==> !p(s[j])
    ensures RunEnd(s, i, p) == j
    decreases j - i
  {
    if i < j {
      RunEndIs(s, i + 1, p, j);
    }
  }

  // ---------------------------------------------------- _extract_property_id

  /** Where `$` lets the match end: before a final newline, if there is one. */
  function AnchorEnd(url: string): nat
  {
    if |url| > 0 && url[|url| - 1] == '\n' then |url| - 1 else |url|
  }

  /** The text the digits must end: everything before the `$` anchor, less
      the optional slash. */
  function IdSpan(url: string): (v: string)
    ensures IsPrefix(v, url)
  {
    var u := url[..AnchorEnd(url)];
    if |u| > 0 && u[|u| - 1] == '/' then u[..|u| - 1] else u
  }

  /** `re.search(r'/(\d+)/?$', url).group(1)`, None for a missing or empty
      URL and when nothing matches. */
  function ExtractPropertyId(url: Option<string>): (r: Option<string>)
    ensures r.Some? ==> r.value != [] && AllDigits(r.value)
  {
    if url.None? || url.value == [] then None
    else
      var v := IdSpan(url.value);
      var k := TrailingDigits(v);
      if 0 < k < |v| && v[|v| - k - 1] == '/' then Some(v[|v| - k..]) else None
  }

  /** The text after the id that the pattern may consume: an optional slash,
      then the end or a final newline. */
  predicate IdTail(tail: string)
  {
    tail == "" || tail == "/" || tail == "\n" || tail == "/\n"
  }

  predicate IdMatch(url: string, pre: string, id: string, tail: string)
  {
    url == pre + "/" + id + tail && id != [] && AllDigits(id) && IdTail(tail)
  }

  lemma IdSpanOfMatch(url: string, pre: string, id: string, tail: string)
    requires IdMatch(url, pre, id, tail)
    ensures IdSpan(url) == pre + "/" + id
  {
    var body := pre + "/" + id;
    assert body[|body| - 1] == id[|id| - 1];
    if tail == "" {
      assert url == body;
    } else if tail == "/" {
      assert url == body + "/";
      assert url[..AnchorEnd(url)] == url;
    } else if tail == "\n" {
      assert url == body + "\n";
      assert url[..AnchorEnd(url)] == body;
    } else {
      assert url == (body + "/") + "\n";
      assert url[..AnchorEnd(url)] == body + "/";
    }
  }

  /** Every URL of the shape `…/<digits>[/][\n]` yields those digits. */
  lemma IdOfMatchingUrl(url: string, pre: string, id: string, tail: string)
    requires IdMatch(url, pre, id, tail)
    ensures ExtractPropertyId(Some(url)) == Some(id)
  {
    IdSpanOfMatch(url, pre, id, tail);
    var v := IdSpan(url);
    assert v[|v| - |id|..] == id;
    assert v[|v| - |id| - 1] == '/';
    TrailingDigitsIs(v, |id|);
  }

  /** What follows the id span is an optional slash and an optional final
      newline. */
  lemma SpanTail(url: string)
    ensures IdTail(url[|IdSpan(url)|..])
  {
    var u := url[..AnchorEnd(url)];
    var tail := url[|IdSpan(url)|..];
    var slash := |u| > 0 && u[|u| - 1] == '/';
    if AnchorEnd(url) < |url| {
      if slash {
        assert |tail| == 2 && tail[0] == '/' && tail[1] == '\n';
      } else {
        assert |tail| == 1 && tail[0] == '\n';
      }
    } else {
      if slash {
        assert |tail| == 1 && tail[0] == '/';
      } else {
        assert |tail| == 0;
      }
    }
  }

  /** Conversely, an id is only returned for a URL of that shape. */
  lemma MatchOfReturnedId(url: string)
    requires ExtractPropertyId(Some(url)).Some?
    ensures exists pre, tail :: IdMatch(url, pre, ExtractPropertyId(Some(url)).value, tail)
  {
    var id := ExtractPropertyId(Some(url)).value;
    var v := IdSpan(url);
    var k := TrailingDigits(v);
    var pre := v[..|v| - k - 1];
    var tail := url[|v|..];
    SpanTail(url);
    assert v == pre + "/" + id by {
      assert v == v[..|v| - k - 1] + [v[|v| - k - 1]] + v[|v| - k..];
    }
    assert url == v + tail by {
      assert url == url[..|v|] + url[|v|..];
    }
    assert IdMatch(url, pre, id, tail);
  }

  // ------------------------------------------------------------ _parse_number

  /** `re.search(r'\d+', text)` as an int: the first run of digits, None for
      a missing or empty text and for a text without digits. Used by
      daft_scraper.py and daft_scraper_automated_async.py. */
  function ParseFirstNumber(text: Option<string>): (r: Option<nat>)
    ensures r.Some? <==> text.Some? && !NoDigits(text.value)
  {
    if text.None? || text.value == [] then None
    else
      var s := text.value;
      var i := NextDigit(s, 0);
      if i == |s| then None
      else
        var j := RunEnd(s, i, IsDigit);
        assert AllDigits(s[i..j]);
        Some(DigitsValue(s[i..j]))
  }

  /** `re.sub(r'[^\d]', '', text)`: the digits of `text`, in order. */
  function KeepDigits(s: string): (r: string)
    ensures AllDigits(r) && |r| <= |s|
    decreases |s|
  {
    if s == [] then []
    else if IsDigit(s[0]) then [s[0]] + KeepDigits(s[1..])
    else KeepDigits(s[1..])
  }

  predicate NoDigits(s: string) { forall i :: 0 <= i < |s| ==> !IsDigit(s[i]) }

  /** Nothing is kept exactly when the text has no digit. */
  lemma {:induction false} KeepDigitsEmpty(s: string)
    ensures KeepDigits(s) == [] <==> NoDigits(s)
    decreases |s|
  {
    if s != [] {
      KeepDigitsEmpty(s[1..]);
      assert NoDigits(s) <==> !IsDigit(s[0]) && NoDigits(s[1..]) by {
        assert forall i :: 1 <= i < |s| ==> s[i] == s[1..][i - 1];
      }
    }
  }

  /** `int(re.sub(r'[^\d]', '', str(text)))`: every digit of the text read
      as one number; int('') raises ValueError, which becomes None. Used by
      smart_daft_scraper.py. */
  function ParseAllDigits(text: Option<string>): (r: Option<nat>)
    ensures r.Some? <==> text.Some? && !NoDigits(text.value)
  {
    if text.None? || text.value == [] then None
    else
      var d := KeepDigits(text.value);
      KeepDigitsEmpty(text.value);
      if d == [] then None else Some(DigitsValue(d))
  }

  lemma {:induction false} KeepDigitsAppend(a: string, b: string)
    ensures KeepDigits(a + b) == KeepDigits(a) + KeepDigits(b)
    decreases |a|
  {
    if a == [] {
      assert a + b == b;
    } else {
      assert (a + b)[0] == a[0] && (a + b)[1..] == a[1..] + b;
      KeepDigitsAppend(a[1..], b);
    }
  }

  lemma {:induction false} KeepDigitsOfDigits(d: string)
    requires AllDigits(d)
    ensures KeepDigits(d) == d
    decreases |d|
  {
    if d != [] {
      KeepDigitsOfDigits(d[1..]);
    }
  }

  /** The first-run reader stops at the first character after the first run. */
  lemma FirstRunRead(s: string, pre: string, d: string, rest: string)
    requires s == pre + d + rest && NoDigits(pre)
    requires d != [] && AllDigits(d)
    requires rest == [] || !IsDigit(rest[0])
    ensures ParseFirstNumber(Some(s)) == Some(DigitsValue(d))
  {
    assert forall m :: 0 <= m < |pre| ==> s[m] == pre[m];
    NextDigitIs(s, 0, |pre|);
    assert forall m :: |pre| <= m < |pre| + |d| ==> s[m] == d[m - |pre|];
    RunEndIs(s, |pre|, IsDigit, |pre| + |d|);
    assert s[|pre|..|pre| + |d|] == d;
  }

  /** The first-run reader finds a number written between digit-free text:
      it reads back exactly the number that was rendered. */
  lemma ParseFirstNumberRoundTrip(pre: string, n: nat, post: string)
    requires NoDigits(pre)
    requires post == [] || !IsDigit(post[0])
    ensures ParseFirstNumber(Some(pre + NatToString(n) + post)) == Some(n)
  {
    FirstRunRead(pre + NatToString(n) + post, pre, NatToString(n), post);
    NatToStringValue(n);
  }

  /** The all-digits reader reads a rendered number back the same way. */
  lemma ParseAllDigitsRoundTrip(pre: string, n: nat, post: string)
    requires NoDigits(pre) && NoDigits(post)
    ensures ParseAllDigits(Some(pre + NatToString(n) + post)) == Some(n)
  {
    var d := NatToString(n);
    KeepDigitsAppend(pre + d, post);
    KeepDigitsAppend(pre, d);
    KeepDigitsEmpty(pre);
    KeepDigitsEmpty(post);
    KeepDigitsOfDigits(d);
    assert KeepDigits(pre + d + post) == d;
    NatToStringValue(n);
  }

  /** Where the two readers differ: with two digit runs, the first-run reader
      returns the first one while the all-digits reader glues them together
      ("2 bed, 1 bath" gives 2 and 21). */
  lemma ParsersDisagreeOnTwoRuns(pre: string, a: string, mid: string, b: string, post: string)
    requires NoDigits(pre) && NoDigits(mid) && NoDigits(post)
    requires a != [] && AllDigits(a) && b != [] && AllDigits(b) && mid != []
    ensures ParseFirstNumber(Some(pre + a + mid + b + post)) == Some(DigitsValue(a))
    ensures ParseAllDigits(Some(pre + a + mid + b + post)) == Some(DigitsValue(a + b))
  {
    var s := pre + a + mid + b + post;
    assert s == pre + a + (mid + b + post);
    FirstRunRead(s, pre, a, mid + b + post);
    KeepDigitsEmpty(pre);
    KeepDigitsEmpty(mid);
    KeepDigitsEmpty(post);
    KeepDigitsOfDigits(a);
    KeepDigitsOfDigits(b);
    KeepDigitsAppend(pre, a);
    assert KeepDigits(pre + a) == a;
    KeepDigitsAppend(pre + a, mid);
    assert KeepDigits(pre + a + mid) == a;
    KeepDigitsAppend(pre + a + mid, b);
    assert KeepDigits(pre + a + mid + b) == a + b;
    KeepDigitsAppend(pre + a + mid + b, post);
    assert KeepDigits(s) == a + b;
  }

  // ----------------------------------------------------------- _extract_county

  /** The county list of smart_daft_scraper.py, in its order. */
  const SmartCounties: seq<string> := [
    "Dublin", "Cork", "Galway", "Limerick", "Waterford", "Kilkenny",
    "Wexford", "Carlow", "Kildare", "Meath", "Louth", "Wicklow",
    "Offaly", "Laois", "Westmeath", "Longford", "Roscommon", "Sligo",
    "Leitrim", "Donegal", "Mayo", "Kerry", "Clare", "Tipperary",
    "Cavan", "Monaghan"]

  /** The county list shared by daft_scraper.py and
      daft_scraper_automated_async.py, in their order. */
  const DaftCounties: seq<string> := [
    "Dublin", "Cork", "Galway", "Limerick", "Waterford", "Kilkenny",
    "Wexford", "Carlow", "Kildare", "Meath", "Louth", "Wicklow",
    "Offaly", "Laois", "Westmeath", "Longford", "Kerry", "Clare",
    "Tipperary", "Sligo", "Leitrim", "Roscommon", "Mayo", "Donegal",
    "Cavan", "Monaghan"]

  /** Index of the first county whose upper-cased name occurs in the
      upper-cased title (|counties| when none does). */
  function FirstListed(counties: seq<string>, titleUpper: string): (k: nat)
    ensures k <= |counties|
    ensures forall j :: 0 <= j < k ==> !Contains(titleUpper, Upper(counties[j]))
    ensures k < |counties| ==> Contains(titleUpper, Upper(counties[k]))
    decreases |counties|
  {
    if counties == [] then 0
    else if Contains(titleUpper, Upper(counties[0])) then 0
    else
      var k := FirstListed(counties[1..], titleUpper);
      assert forall j :: 1 <= j < k + 1 ==> counties[1..][j - 1] == counties[j];
      k + 1
  }

  /** `k` is the first position, in list order, of a county whose
      upper-cased name occurs in `titleUpper`. */
  predicate FirstOccurring(counties: seq<string>, titleUpper: string, k: int)
  {
    0 <= k < |counties| && Contains(titleUpper, Upper(counties[k])) &&
    forall j :: 0 <= j < k ==> !Contains(titleUpper, Upper(counties[j]))
  }

  /** No county of the list occurs in `titleUpper`. */
  predicate NoneListed(counties: seq<string>, titleUpper: string)
  {
    forall c :: c in counties ==> !Contains(titleUpper, Upper(c))
  }

  /** The ordered scan `for county in counties: if county.upper() in
      title.upper(): return county`: the first county in list order whose
      name occurs, ignoring case, and none when no county does. */
  function ListedCounty(counties: seq<string>, title: string): (r: Option<string>)
    ensures r.Some? ==> r.value in counties && Contains(Upper(title), Upper(r.value))
    ensures r.Some? ==> exists k :: FirstOccurring(counties, Upper(title), k) && r.value == counties[k]
    ensures forall k :: FirstOccurring(counties, Upper(title), k) ==> r == Some(counties[k])
    ensures r.None? <==> NoneListed(counties, Upper(title))
  {
    var k := FirstListed(counties, Upper(title));
    assert k < |counties| ==> FirstOccurring(counties, Upper(title), k);
    if k < |counties| then Some(counties[k]) else None
  }

  /** smart_daft_scraper.py `_extract_county`: the list scan only. A
      missing or empty title gives None; otherwise the first listed county
      the title names, and None when it names none. */
  function SmartExtractCounty(title: Option<string>): (r: Option<string>)
    ensures r.Some? ==> title.Some? && r.value in SmartCounties
    ensures r.None? <==> title.None? || title.value == [] || NoneListed(SmartCounties, Upper(title.value))
    ensures forall k :: title.Some? && title.value != [] && FirstOccurring(SmartCounties, Upper(title.value), k) ==>
                          r == Some(SmartCounties[k])
  {
    if title.None? || title.value == [] then None else ListedCounty(SmartCounties, title.value)
  }

  /** `s` spells `word` at position `i`, ignoring ASCII case when asked. */
  predicate WordAt(s: string, i: nat, word: string, ignoreCase: bool)
  {
    i + |word| <= |s| &&
    (if ignoreCase then Lower(s[i..i + |word|]) == Lower(word) else s[i..i + |word|] == word)
  }

  /** `\s+([A-Za-z]+)` anchored at `j`: the captured word, if the match
      succeeds; it is the letter run that follows the run of spaces. */
  function WordAfterSpaces(s: string, j: nat): (r: Option<string>)
    requires j <= |s|
    ensures r.Some? ==> r.value != [] && OccursAt(s, r.value, RunEnd(s, j, IsSpace))
    ensures r.Some? ==> forall m :: 0 <= m < |r.value| ==> IsLetter(r.value[m])
  {
    var k := RunEnd(s, j, IsSpace);
    if k == j then None
    else
      var m := RunEnd(s, k, IsLetter);
      if m == k then None else Some(s[k..m])
  }

  /** `(?:County|Co\.?)\s+([A-Za-z]+)` anchored at `i`, with the alternatives
      and the optional dot tried in the order the regex engine tries them. */
  function PatternAt(s: string, i: nat, ignoreCase: bool): (r: Option<string>)
    requires i <= |s|
    ensures r.Some? ==> r.value != [] && exists k :: OccursAt(s, r.value, k)
  {
    var county := if WordAt(s, i, "County", ignoreCase) then WordAfterSpaces(s, i + 6) else None;
    if county.Some? then county
    else if !WordAt(s, i, "Co", ignoreCase) then None
    else
      var dotted := if i + 2 < |s| && s[i + 2] == '.' then WordAfterSpaces(s, i + 3) else None;
      if dotted.Some? then dotted else WordAfterSpaces(s, i + 2)
  }

  /** The pattern matches at no position from `i` up to `j`. */
  predicate NoPatternBetween(s: string, i: nat, j: nat, ignoreCase: bool)
    requires j <= |s|
  {
    forall m :: i <= m < j ==> PatternAt(s, m, ignoreCase).None?
  }

  /** `re.search` of the county pattern from position `i`: the capture of the
      leftmost position where the pattern matches. */
  function SearchCountyPattern(s: string, i: nat, ignoreCase: bool): (r: Option<string>)
    requires i <= |s|
    ensures r.Some? ==> exists j :: i <= j < |s| && PatternAt(s, j, ignoreCase) == r &&
                                    NoPatternBetween(s, i, j, ignoreCase)
    ensures r.None? ==> NoPatternBetween(s, i, |s|, ignoreCase)
    decreases |s| - i
  {
    if i == |s| then None
    else
      var here := PatternAt(s, i, ignoreCase);
      if here.Some? then assert NoPatternBetween(s, i, i, ignoreCase); here
      else
        var rest := SearchCountyPattern(s, i + 1, ignoreCase);
        LeftmostExtends(s, i, ignoreCase, rest);
        rest
  }

  /** A position where the pattern fails does not change which match is the
      leftmost one. */
  lemma LeftmostExtends(s: string, i: nat, ignoreCase: bool, r: Option<string>)
    requires i < |s| && PatternAt(s, i, ignoreCase).None?
    requires r.Some? ==> exists j :: i + 1 <= j < |s| && PatternAt(s, j, ignoreCase) == r &&
                                      NoPatternBetween(s, i + 1, j, ignoreCase)
    requires r.None? ==> NoPatternBetween(s, i + 1, |s|, ignoreCase)
    ensures r.Some? ==> exists j :: i <= j < |s| && PatternAt(s, j, ignoreCase) == r &&
                                    NoPatternBetween(s, i, j, ignoreCase)
    ensures r.None? ==> NoPatternBetween(s, i, |s|, ignoreCase)
  {
    if r.Some? {
      var j :| i + 1 <= j < |s| && PatternAt(s, j, ignoreCase) == r && NoPatternBetween(s, i + 1, j, ignoreCase);
      assert NoPatternBetween(s, i, j, ignoreCase);
    }
  }

  /** Python's str.title() of a word made of ASCII letters. */
  function TitleWord(w: string): (r: string)
    requires w != []
    ensures |r| == |w| && r[0] == UpperChar(w[0])
    ensures forall m :: 1 <= m < |w| ==> r[m] == LowerChar(w[m])
  {
    [UpperChar(w[0])] + Lower(w[1..])
  }

  /** daft_scraper.py `_extract_county`: the list scan, then the
      case-sensitive pattern, whose capture is returned as written. */
  function DaftExtractCounty(address: Option<string>): (r: Option<string>)
    ensures r.None? <==> address.None? || address.value == [] ||
                         (ListedCounty(DaftCounties, address.value).None? &&
                          SearchCountyPattern(address.value, 0, false).None?)
    ensures forall k :: address.Some? && address.value != [] && FirstOccurring(DaftCounties, Upper(address.value), k) ==>
                          r == Some(DaftCounties[k])
    ensures address.Some? && address.value != [] && NoneListed(DaftCounties, Upper(address.value)) ==>
              r == SearchCountyPattern(address.value, 0, false)
  {
    if address.None? || address.value == [] then None
    else
      var listed := ListedCounty(DaftCounties, address.value);
      if listed.Some? then listed else SearchCountyPattern(address.value, 0, false)
  }

  /** daft_scraper_automated_async.py `_extract_county`: the list scan, then
      the case-insensitive pattern, whose capture is title-cased. */
  function AsyncExtractCounty(address: Option<string>): (r: Option<string>)
    ensures r.None? <==> address.None? || address.value == [] ||
                         (ListedCounty(DaftCounties, address.value).None? &&
                          SearchCountyPattern(address.value, 0, true).None?)
    ensures forall k :: address.Some? && address.value != [] && FirstOccurring(DaftCounties, Upper(address.value), k) ==>
                          r == Some(DaftCounties[k])
    ensures address.Some? && address.value != [] && NoneListed(DaftCounties, Upper(address.value)) &&
            SearchCountyPattern(address.value, 0, true).Some? ==>
              r == Some(TitleWord(SearchCountyPattern(address.value, 0, true).value))
  {
    if address.None? || address.value == [] then None
    else
      var listed := ListedCounty(DaftCounties, address.value);
      if listed.Some? then listed
      else
        var w := SearchCountyPattern(address.value, 0, true);
        if w.Some? then Some(TitleWord(w.value)) else None
  }

  /** A word the pattern captures always occurs in the title. */
  lemma CaptureOccurs(s: string, ignoreCase: bool)
    requires SearchCountyPattern(s, 0, ignoreCase).Some?
    ensures Contains(Upper(s), Upper(SearchCountyPattern(s, 0, ignoreCase).value))
  {
    var w := SearchCountyPattern(s, 0, ignoreCase).value;
    var j :| 0 <= j < |s| && PatternAt(s, j, ignoreCase) == Some(w);
    var k :| OccursAt(s, w, k);
    UpperOccurs(s, w, k);
    ContainsAt(Upper(s), Upper(w));
  }

  lemma UpperOccurs(s: string, w: string, k: int)
    requires OccursAt(s, w, k)
    ensures OccursAt(Upper(s), Upper(w), k)
  {
    var us := Upper(s);
    forall m | 0 <= m < |w| ensures us[k..k + |w|][m] == Upper(w)[m] {
      assert s[k..k + |w|][m] == w[m];
    }
  }

  /** The fallback pattern of daft_scraper.py never returns the name of a
      listed county: any such name in the title is found by the list scan
      first. */
  lemma DaftFallbackIsUnlisted(address: string)
    requires ListedCounty(DaftCounties, address).None?
    requires DaftExtractCounty(Some(address)).Some?
    ensures forall c :: c in DaftCounties ==> Upper(c) != Upper(DaftExtractCounty(Some(address)).value)
  {
    CaptureOccurs(address, false);
  }

  lemma UpperTitleWord(w: string)
    requires w != []
    ensures Upper(TitleWord(w)) == Upper(w)
  {
    var t := TitleWord(w);
    forall m | 0 <= m < |w| ensures Upper(t)[m] == Upper(w)[m] {
      if m > 0 {
        assert t[m] == LowerChar(w[m]);
      }
    }
  }

  /** The same for the title-cased capture of the asynchronous scraper. */
  lemma AsyncFallbackIsUnlisted(address: string)
    requires ListedCounty(DaftCounties, address).None?
    requires AsyncExtractCounty(Some(address)).Some?
    ensures forall c :: c in DaftCounties ==> Upper(c) != Upper(AsyncExtractCounty(Some(address)).value)
  {
    CaptureOccurs(address, true);
    UpperTitleWord(SearchCountyPattern(address, 0, true).value);
  }

  // ------------------------------------------- Westmeath read as Meath

  /** `pat` does not occur in `s` when no two neighbouring characters of `s`
      spell `pat[d]` followed by `pat[d + 1]`. */
  lemma {:induction false} PairAbsent(s: string, pat: string, d: nat)
    requires d + 1 < |pat|
    requires forall i :: 0 <= i < |s| - 1 ==> !(s[i] == pat[d] && s[i + 1] == pat[d + 1])
    ensures !Contains(s, pat)
    decreases |s|
  {
    if s != [] {
      if |pat| <= |s| {
        assert s[..|pat|][d] == s[d] && s[..|pat|][d + 1] == s[d + 1];
      }
      var t := s[1..];
      forall i | 0 <= i < |t| - 1 ensures !(t[i] == pat[d] && t[i + 1] == pat[d + 1]) {
        assert t[i] == s[i + 1] && t[i + 1] == s[i + 2];
      }
      PairAbsent(t, pat, d);
    }
  }

  lemma FirstListedIs(counties: seq<string>, t: string, k: nat)
    requires k < |counties|
    requires forall j :: 0 <= j < k ==> !Contains(t, Upper(counties[j]))
    requires Contains(t, Upper(counties[k]))
    ensures FirstListed(counties, t) == k
  {
  }

  /** None of the nine counties listed before Meath occurs in "WESTMEATH". */
  lemma WestmeathAvoidsEarlier(j: nat)
    requires j < 9
    ensures !Contains("WESTMEATH", Upper(SmartCounties[j]))
    ensures !Contains("WESTMEATH", Upper(DaftCounties[j]))
  {
    assert SmartCounties[j] == DaftCounties[j];
    var d := if j == 6 then 1 else 0;
    PairAbsent("WESTMEATH", Upper(SmartCounties[j]), d);
  }

  /** "MEATH" occurs inside "WESTMEATH". */
  lemma MeathInWestmeath()
    ensures Contains("WESTMEATH", Upper("Meath"))
  {
    var m := Upper("Meath");
    assert m == "MEATH" by {
      forall i | 0 <= i < 5 ensures m[i] == "MEATH"[i] {
      }
    }
    assert OccursAt("WESTMEATH", m, 4);
    ContainsAt("WESTMEATH", m);
  }

  lemma MeathFirstIn(counties: seq<string>)
    requires |counties| > 9 && counties[9] == "Meath"
    requires forall j :: 0 <= j < 9 ==> !Contains("WESTMEATH", Upper(counties[j]))
    ensures FirstListed(counties, "WESTMEATH") == 9
  {
    MeathInWestmeath();
    FirstListedIs(counties, "WESTMEATH", 9);
  }

  lemma SmartMeathFirst()
    ensures FirstListed(SmartCounties, "WESTMEATH") == 9
  {
    forall j | 0 <= j < 9 ensures !Contains("WESTMEATH", Upper(SmartCounties[j])) {
      WestmeathAvoidsEarlier(j);
    }
    MeathFirstIn(SmartCounties);
  }

  lemma DaftMeathFirst()
    ensures FirstListed(DaftCounties, "WESTMEATH") == 9
  {
    forall j | 0 <= j < 9 ensures !Contains("WESTMEATH", Upper(DaftCounties[j])) {
      WestmeathAvoidsEarlier(j);
    }
    MeathFirstIn(DaftCounties);
  }

  /** In any county list that puts Meath at position 9 behind nine counties
      absent from "WESTMEATH", the list scan reads a Westmeath address as
      Meath. */
  lemma MeathListedIn(counties: seq<string>, address: string)
    requires |counties| > 9 && counties[9] == "Meath"
    requires forall j :: 0 <= j < 9 ==> !Contains("WESTMEATH", Upper(counties[j]))
    requires Upper(address) == "WESTMEATH"
    ensures ListedCounty(counties, address) == Some("Meath")
  {
    MeathFirstIn(counties);
  }

  /** As written, the smart scraper files a Westmeath address under Meath. */
  lemma SmartWestmeathReadAsMeath(address: string)
    requires Upper(address) == "WESTMEATH"
    ensures SmartExtractCounty(Some(address)) == Some("Meath")
  {
    forall j | 0 <= j < 9 ensures !Contains("WESTMEATH", Upper(SmartCounties[j])) {
      WestmeathAvoidsEarlier(j);
    }
    MeathListedIn(SmartCounties, address);
  }

  /** As written, both Daft scrapers file a Westmeath address under Meath:
      the list scan answers before either county pattern is tried. */
  lemma DaftWestmeathReadAsMeath(address: string)
    requires Upper(address) == "WESTMEATH"
    ensures DaftExtractCounty(Some(address)) == Some("Meath")
    ensures AsyncExtractCounty(Some(address)) == Some("Meath")
  {
    forall j | 0 <= j < 9 ensures !Contains("WESTMEATH", Upper(DaftCounties[j])) {
      WestmeathAvoidsEarlier(j);
    }
    MeathListedIn(DaftCounties, address);
  }

  /** As written, every scraper files a Westmeath listing under Meath, in
      whatever letter case the address spells it: Meath comes first in each
      county list, and "MEATH" occurs inside "WESTMEATH". */
  lemma WestmeathReadAsMeath(address: string)
    requires Upper(address) == "WESTMEATH"
    ensures SmartExtractCounty(Some(address)) == Some("Meath")
    ensures DaftExtractCounty(Some(address)) == Some("Meath")
    ensures AsyncExtractCounty(Some(address)) == Some("Meath")
  {
    SmartWestmeathReadAsMeath(address);
    DaftWestmeathReadAsMeath(address);
  }

  /** The address "Westmeath" is one such address. */
  lemma UpperWestmeathAddress()
    ensures Upper("Westmeath") == "WESTMEATH"
  {
    var u := Upper("Westmeath");
    forall i | 0 <= i < 9 ensures u[i] == "WESTMEATH"[i] {
    }
  }

  /** The county list with Westmeath (position 14) moved ahead of Meath
      (position 9), so the longer name that contains the shorter one is
      tried first. */
  const OrderedCounties: seq<string> :=
    SmartCounties[..9] + [SmartCounties[14]] + SmartCounties[9..14] + SmartCounties[15..]

  /** The list scan over the corrected order. */
  function ExtractCountyOrdered(title: Option<string>): (r: Option<string>)
    ensures r.Some? ==> title.Some? && r.value in OrderedCounties
    ensures r.None? <==> title.None? || title.value == [] || NoneListed(OrderedCounties, Upper(title.value))
    ensures forall k :: title.Some? && title.value != [] && FirstOccurring(OrderedCounties, Upper(title.value), k) ==>
                          r == Some(OrderedCounties[k])
  {
    if title.None? || title.value == [] then None else ListedCounty(OrderedCounties, title.value)
  }

  /** Moving the element at `j` ahead of position `i` keeps the elements. */
  lemma MoveForwardSameElements<T>(s: seq<T>, i: nat, j: nat)
    requires i <= j < |s|
    ensures multiset(s[..i] + [s[j]] + s[i..j] + s[j + 1..]) == multiset(s)
  {
    assert s == s[..i] + s[i..j] + [s[j]] + s[j + 1..];
  }

  /** The corrected order names the same counties. */
  lemma OrderedCountiesSameSet()
    ensures multiset(OrderedCounties) == multiset(SmartCounties)
  {
    MoveForwardSameElements(SmartCounties, 9, 14);
  }

  lemma UpperWestmeath()
    ensures Upper(OrderedCounties[9]) == "WESTMEATH"
  {
    var w := Upper(OrderedCounties[9]);
    forall i | 0 <= i < 9 ensures w[i] == "WESTMEATH"[i] {
    }
  }

  /** With the corrected order a title naming Westmeath is never filed under
      Meath: Westmeath is found first, or a county listed before it. */
  lemma OrderedNeverMeathForWestmeath(title: string)
    requires Contains(Upper(title), "WESTMEATH")
    ensures ExtractCountyOrdered(Some(title)).Some?
    ensures ExtractCountyOrdered(Some(title)) != Some("Meath")
  {
    UpperWestmeath();
    var k := FirstListed(OrderedCounties, Upper(title));
    assert k <= 9;
    if k < 9 {
      WestmeathAvoidsEarlier(k);
      MeathInWestmeath();
      assert OrderedCounties[k] == SmartCounties[k];
    }
    assert OrderedCounties[k] != "Meath";
  }

  /** The Daft county list with Westmeath moved ahead of Meath in the same
      way. */
  const OrderedDaftCounties: seq<string> :=
    DaftCounties[..9] + [DaftCounties[14]] + DaftCounties[9..14] + DaftCounties[15..]

  /** daft_scraper.py `_extract_county` with the corrected list order: the
      list scan, then the case-sensitive pattern as before. */
  function DaftExtractCountyOrdered(address: Option<string>): (r: Option<string>)
    ensures r.None? <==> address.None? || address.value == [] ||
                         (ListedCounty(OrderedDaftCounties, address.value).None? &&
                          SearchCountyPattern(address.value, 0, false).None?)
    ensures forall k :: address.Some? && address.value != [] &&
                        FirstOccurring(OrderedDaftCounties, Upper(address.value), k) ==>
                          r == Some(OrderedDaftCounties[k])
    ensures address.Some? && address.value != [] && NoneListed(OrderedDaftCounties, Upper(address.value)) ==>
              r == SearchCountyPattern(address.value, 0, false)
  {
    if address.None? || address.value == [] then None
    else
      var listed := ListedCounty(OrderedDaftCounties, address.value);
      if listed.Some? then listed else SearchCountyPattern(address.value, 0, false)
  }

  lemma OrderedDaftCountiesSameSet()
    ensures multiset(OrderedDaftCounties) == multiset(DaftCounties)
  {
    MoveForwardSameElements(DaftCounties, 9, 14);
  }

  lemma UpperDaftWestmeath()
    ensures Upper(OrderedDaftCounties[9]) == "WESTMEATH"
  {
    var w := Upper(OrderedDaftCounties[9]);
    forall i | 0 <= i < 9 ensures w[i] == "WESTMEATH"[i] {
    }
  }

  /** With the corrected order the Daft scraper never files a Westmeath
      address under Meath either. */
  lemma OrderedDaftNeverMeathForWestmeath(address: string)
    requires Contains(Upper(address), "WESTMEATH")
    ensures DaftExtractCountyOrdered(Some(address)).Some?
    ensures DaftExtractCountyOrdered(Some(address)) != Some("Meath")
  {
    UpperDaftWestmeath();
    var k := FirstListed(OrderedDaftCounties, Upper(address));
    assert k <= 9;
    if k < 9 {
      WestmeathAvoidsEarlier(k);
      MeathInWestmeath();
      assert OrderedDaftCounties[k] == DaftCounties[k];
    }
    assert OrderedDaftCounties[k] != "Meath";
  }

  // --------------------------------------------------------------- listing URL

  /** daft_scraper.py `property_url`: base URL followed by the card's href,
      None when the href is missing or empty. */
  function CardPropertyUrl(baseUrl: string, href: Option<string>): (r: Option<string>)
    ensures r.Some? <==> href.Some? && href.value != []
    ensures r.Some? ==> IsPrefix(baseUrl, r.value) && r.value[|baseUrl|..] == href.value
  {
    if href.None? || href.value == [] then None else Some(baseUrl + href.value)
  }

  lemma PrefixKeepsMatch(baseUrl: string, url: string, pre: string, id: string, tail: string)
    requires IdMatch(url, pre, id, tail)
    ensures IdMatch(baseUrl + url, baseUrl + pre, id, tail)
  {
    assert baseUrl + url == (baseUrl + pre) + "/" + id + tail;
  }

  /** Prefixing the base URL keeps the property id read from the href. */
  lemma CardUrlKeepsId(baseUrl: string, href: string)
    requires ExtractPropertyId(Some(href)).Some?
    ensures ExtractPropertyId(CardPropertyUrl(baseUrl, Some(href))) == ExtractPropertyId(Some(href))
  {
    var id := ExtractPropertyId(Some(href)).value;
    MatchOfReturnedId(href);
    var pre, tail :| IdMatch(href, pre, id, tail);
    PrefixKeepsMatch(baseUrl, href, pre, id, tail);
    IdOfMatchingUrl(baseUrl + href, baseUrl + pre, id, tail);
  }
}
