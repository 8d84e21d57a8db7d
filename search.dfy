/** The panel's search filter: which items stay visible for a search text.
    An item passes when the search text, stripped of one leading trigger
    character, is empty, is a substring of the item's search corpus, or
    matches it as a fuzzy pattern (each query character in order, anything
    but a line terminator between them); items whose corpus holds Chinese
    characters are matched against its pinyin transliteration instead. */
module QuickPanelSearch {
  import opened QuickPanelTypes
  import opened ItemLists

  /** Text functions the filter borrows from the platform: `toLowerCase`, and
      the pinyin library (`isSupported`, and `convertToPinyin`, None when it
      throws). */
  datatype TextServices = TextServices(
    lower: string -> string,
    pinyinSupported: bool,
    pinyin: string -> Option<string>)

  predicate IsTrigger(c: char)
  {
    c == '/' || c == '@'
  }

  /** `replace(/^[/@]/, '')`: drop one leading trigger character. */
  function StripTrigger(s: string): (r: string)
    ensures |s| > 0 && IsTrigger(s[0]) ==> r == s[1..]
    ensures |s| == 0 || !IsTrigger(s[0]) ==> r == s
  {
    if |s| > 0 && IsTrigger(s[0]) then s[1..] else s
  }

  function TextOf(c: Content): string
  {
    if c.Text? then c.text else ""
  }

  /** The text searched for an item: its `filterText`, then its label and its
      description when those are strings. */
  function Corpus(item: ListItem): (r: string)
    ensures |item.filterText.GetOr("")| <= |r| && r[..|item.filterText.GetOr("")|] == item.filterText.GetOr("")
    ensures item.description.None? ==> r == item.filterText.GetOr("") + TextOf(item.caption)
  {
    item.filterText.GetOr("") + TextOf(item.caption)
      + (if item.description.Some? then TextOf(item.description.value) else "")
  }

  /** `includes`: `q` occurs in `t` as a contiguous block. */
  predicate Contains(t: string, q: string)
    decreases |t|
  {
    q <= t || (t != [] && Contains(t[1..], q))
  }

  /** `q` occurs in `t` starting at position `i`. */
  predicate OccursAt(t: string, i: nat, q: string)
  {
    i <= |t| && q <= t[i..]
  }

  /** `Contains` is the existence of an occurrence. */
  lemma {:induction false} ContainsIffOccurrence(t: string, q: string)
    ensures Contains(t, q) <==> exists i: nat :: OccursAt(t, i, q)
    decreases |t|
  {
    if q <= t {
      assert t[0..] == t;
      assert OccursAt(t, 0, q);
    } else if t == [] {
    } else {
      ContainsIffOccurrence(t[1..], q);
      if exists i: nat :: OccursAt(t, i, q) {
        var i: nat :| OccursAt(t, i, q);
        assert t[0..] == t;
        assert i != 0;
        assert t[1..][i - 1..] == t[i..];
        assert OccursAt(t[1..], i - 1, q);
      }
      if exists i: nat :: OccursAt(t[1..], i, q) {
        var i: nat :| OccursAt(t[1..], i, q);
        assert t[1..][i..] == t[i + 1..];
        assert OccursAt(t, i + 1, q);
      }
    }
  }

  /** What `.` in a JavaScript regular expression without the `s` flag refuses:
      line feed, carriage return, line and paragraph separators. */
  predicate IsLineTerminator(c: char)
  {
    c as int == 0x0A || c as int == 0x0D || c as int == 0x2028 || c as int == 0x2029
  }

  /** The pattern `.*q[0].*q[1]...` matched from position `j` of `t`: either
      `q[0]` is the character at `j`, or `.` consumes that character. */
  predicate Follows(t: string, j: nat, q: string)
    requires j <= |t|
    decreases |t| - j, |q|
  {
    q == [] ||
    (j < |t| &&
      ((t[j] == q[0] && Follows(t, j + 1, q[1..])) ||
       (!IsLineTerminator(t[j]) && Follows(t, j + 1, q))))
  }

  /** The pattern `q[0].*q[1].*...` matched at position `i` exactly. */
  predicate MatchesAt(t: string, i: nat, q: string)
    requires i <= |t|
  {
    q == [] || (i < |t| && t[i] == q[0] && Follows(t, i + 1, q[1..]))
  }

  /** `RegExp.test`: a match at some position at or after `i`. */
  predicate SearchFrom(t: string, i: nat, q: string)
    requires i <= |t|
    decreases |t| - i
  {
    MatchesAt(t, i, q) || (i < |t| && SearchFrom(t, i + 1, q))
  }

  /** The fuzzy pattern the filter builds from a query, tested against `t`:
      every substring matches it, and only subsequences do. */
  function FuzzyMatch(t: string, q: string): (r: bool)
    ensures Contains(t, q) ==> r
    ensures r ==> IsSubsequence(q, t)
  {
    if SearchFrom(t, 0, q) then
      SearchFromImpliesSubsequence(t, 0, q);
      assert t[0..] == t;
      true
    else
      assert t[0..] == t;
      if Contains(t, q) then ContainsFrom(t, 0, q); false else false
  }

  /** `q` can be obtained from `t` by deleting elements. */
  predicate IsSubsequence<T(==)>(q: seq<T>, t: seq<T>)
    decreases |t|
  {
    q == [] || (t != [] && ((q[0] == t[0] && IsSubsequence(q[1..], t[1..])) || IsSubsequence(q, t[1..])))
  }

  /** A character in the range `[一-龥]`. */
  predicate IsCJK(c: char)
  {
    0x4E00 <= c as int <= 0x9FA5
  }

  predicate HasCJK(s: string)
  {
    exists i :: 0 <= i < |s| && IsCJK(s[i])
  }

  /** The filter's test for one item: an empty query and a substring always
      pass, and so does every item whose pinyin conversion fails. */
  function Passes(svc: TextServices, item: ListItem, searchText: string): (r: bool)
    ensures StripTrigger(searchText) == "" ==> r
    ensures Contains(svc.lower(Corpus(item)), svc.lower(StripTrigger(searchText))) ==> r
    ensures svc.pinyinSupported && HasCJK(Corpus(item)) && svc.pinyin(Corpus(item)).None? ==> r
  {
    var query := StripTrigger(searchText);
    var corpus := Corpus(item);
    var lowerQuery := svc.lower(query);
    if query == "" then true
    else if Contains(svc.lower(corpus), lowerQuery) then true
    else if svc.pinyinSupported && HasCJK(corpus) then
      match svc.pinyin(corpus)
      case None => true
      case Some(p) => FuzzyMatch(svc.lower(p), lowerQuery)
    else FuzzyMatch(svc.lower(corpus), lowerQuery)
  }

  /** `r` holds every passing item as many times as `list` does, and no
      other item. */
  ghost predicate KeepsPassingCopies(svc: TextServices, list: seq<ListItem>, searchText: string, r: seq<ListItem>)
  {
    forall x :: multiset(r)[x] == if Passes(svc, x, searchText) then multiset(list)[x] else 0
  }

  /** `list.filter(...)`: the passing items, in their order. */
  function Filter(svc: TextServices, list: seq<ListItem>, searchText: string): (r: seq<ListItem>)
    ensures IsSubsequence(r, list)
    ensures forall k :: 0 <= k < |r| ==> Passes(svc, r[k], searchText)
    ensures forall k :: 0 <= k < |list| && Passes(svc, list[k], searchText) ==> list[k] in r
    ensures |r| <= |list|
    decreases |list|
  {
    if list == [] then []
    else
      var rest := Filter(svc, list[1..], searchText);
      assert forall k :: 1 <= k < |list| ==> list[k] == list[1..][k - 1];
      if Passes(svc, list[0], searchText) then [list[0]] + rest else rest
  }

  /** `Filter` keeps every passing item as many times as the list holds it,
      and drops every other item. */
  lemma {:induction false} FilterKeepsCopies(svc: TextServices, list: seq<ListItem>, searchText: string)
    ensures KeepsPassingCopies(svc, list, searchText, Filter(svc, list, searchText))
    decreases |list|
  {
    if list != [] {
      FilterKeepsCopies(svc, list[1..], searchText);
      CopiesStep(svc, list, searchText, Filter(svc, list[1..], searchText));
    }
  }

  /** One step of `Filter`'s count of copies: the head is kept exactly when
      it passes. */
  lemma CopiesStep(svc: TextServices, list: seq<ListItem>, searchText: string, rest: seq<ListItem>)
    requires list != [] && KeepsPassingCopies(svc, list[1..], searchText, rest)
    ensures Passes(svc, list[0], searchText) ==> KeepsPassingCopies(svc, list, searchText, [list[0]] + rest)
    ensures !Passes(svc, list[0], searchText) ==> KeepsPassingCopies(svc, list, searchText, rest)
  {
    var h := list[0];
    assert multiset(list) == multiset{h} + multiset(list[1..]) by {
      assert list == [h] + list[1..];
    }
    if Passes(svc, h, searchText) {
      assert multiset([h] + rest) == multiset{h} + multiset(rest);
      forall x
        ensures multiset([h] + rest)[x] == if Passes(svc, x, searchText) then multiset(list)[x] else 0
      {
        assert multiset(rest)[x] == if Passes(svc, x, searchText) then multiset(list[1..])[x] else 0;
      }
    } else {
      forall x
        ensures multiset(rest)[x] == if Passes(svc, x, searchText) then multiset(list)[x] else 0
      {
        assert multiset(rest)[x] == if Passes(svc, x, searchText) then multiset(list[1..])[x] else 0;
      }
    }
  }

  /** The memo: nothing while the panel is hidden and has no symbol, the
      passing items otherwise. */
  function FilterList(svc: TextServices, isVisible: bool, symbol: string, list: seq<ListItem>, searchText: string): (r: seq<ListItem>)
    ensures !isVisible && symbol == "" ==> r == []
    ensures isVisible || symbol != "" ==> r == Filter(svc, list, searchText)
  {
    if !isVisible && symbol == "" then [] else Filter(svc, list, searchText)
  }

  /** The index the memo focuses after filtering: `defaultIndex || 0`, or -1
      when nothing passed. */
  function FocusAfterFilter(filtered: seq<ListItem>, defaultIndex: int): (r: int)
    ensures filtered == [] ==> r == -1
    ensures filtered != [] ==> r == defaultIndex
    ensures 0 <= defaultIndex < |filtered| ==> 0 <= r < |filtered|
  {
    if |filtered| > 0 then defaultIndex else -1
  }

  // ---------------------------------------------------------------------
  // Properties of the matching.

  /** A query that is empty once its trigger is stripped keeps every item. */
  lemma {:induction false} EmptyQueryKeepsEverything(svc: TextServices, list: seq<ListItem>, searchText: string)
    requires StripTrigger(searchText) == ""
    ensures Filter(svc, list, searchText) == list
    decreases |list|
  {
    if list != [] {
      EmptyQueryKeepsEverything(svc, list[1..], searchText);
    }
  }

  /** Filtering twice with the same text is filtering once. */
  lemma {:induction false} FilterIdempotent(svc: TextServices, list: seq<ListItem>, searchText: string)
    ensures Filter(svc, Filter(svc, list, searchText), searchText) == Filter(svc, list, searchText)
    decreases |list|
  {
    if list != [] {
      FilterIdempotent(svc, list[1..], searchText);
      var rest := Filter(svc, list[1..], searchText);
      if Passes(svc, list[0], searchText) {
        assert ([list[0]] + rest)[1..] == rest;
      }
    }
  }

  /** `alwaysVisible` plays no part in the filter: an item passes or fails
      whatever its value. */
  lemma AlwaysVisibleNotExempt(svc: TextServices, item: ListItem, searchText: string, pinned: bool)
    ensures Passes(svc, item.(alwaysVisible := pinned), searchText) == Passes(svc, item, searchText)
  {
    assert Corpus(item.(alwaysVisible := pinned)) == Corpus(item);
  }

  lemma {:induction false} PrefixFollows(t: string, j: nat, q: string)
    requires j <= |t| && q <= t[j..]
    ensures Follows(t, j, q)
    decreases |q|
  {
    if q != [] {
      assert t[j] == q[0];
      assert q[1..] <= t[j + 1..];
      PrefixFollows(t, j + 1, q[1..]);
    }
  }

  lemma {:induction false} ContainsFrom(t: string, i: nat, q: string)
    requires i <= |t| && Contains(t[i..], q)
    ensures SearchFrom(t, i, q)
    decreases |t| - i
  {
    if q <= t[i..] {
      if q != [] {
        assert q[1..] <= t[i + 1..];
        PrefixFollows(t, i + 1, q[1..]);
      }
    } else {
      assert t[i..][1..] == t[i + 1..];
      ContainsFrom(t, i + 1, q);
    }
  }

  /** A substring always matches the fuzzy pattern too. */
  lemma ContainsImpliesFuzzyMatch(t: string, q: string)
    requires Contains(t, q)
    ensures FuzzyMatch(t, q)
  {
    assert t[0..] == t;
    ContainsFrom(t, 0, q);
  }

  lemma {:induction false} FollowsImpliesSubsequence(t: string, j: nat, q: string)
    requires j <= |t| && Follows(t, j, q)
    ensures IsSubsequence(q, t[j..])
    decreases |t| - j, |q|
  {
    if q != [] {
      assert t[j..][1..] == t[j + 1..];
      if t[j] == q[0] && Follows(t, j + 1, q[1..]) {
        FollowsImpliesSubsequence(t, j + 1, q[1..]);
      } else {
        FollowsImpliesSubsequence(t, j + 1, q);
      }
    }
  }

  lemma {:induction false} SubsequenceImpliesFollows(t: string, j: nat, q: string)
    requires j <= |t| && IsSubsequence(q, t[j..])
    requires forall k :: j <= k < |t| ==> !IsLineTerminator(t[k])
    ensures Follows(t, j, q)
    decreases |t| - j, |q|
  {
    if q != [] {
      assert t[j..][1..] == t[j + 1..];
      if q[0] == t[j] && IsSubsequence(q[1..], t[j + 1..]) {
        SubsequenceImpliesFollows(t, j + 1, q[1..]);
      } else {
        SubsequenceImpliesFollows(t, j + 1, q);
      }
    }
  }

  lemma {:induction false} SearchFromImpliesSubsequence(t: string, i: nat, q: string)
    requires i <= |t| && SearchFrom(t, i, q)
    ensures IsSubsequence(q, t[i..])
    decreases |t| - i
  {
    if q != [] {
      assert t[i..][1..] == t[i + 1..];
      if MatchesAt(t, i, q) {
        FollowsImpliesSubsequence(t, i + 1, q[1..]);
      } else {
        SearchFromImpliesSubsequence(t, i + 1, q);
      }
    }
  }

  lemma {:induction false} SubsequenceImpliesSearchFrom(t: string, i: nat, q: string)
    requires i <= |t| && IsSubsequence(q, t[i..])
    requires forall k :: i <= k < |t| ==> !IsLineTerminator(t[k])
    ensures SearchFrom(t, i, q)
    decreases |t| - i
  {
    if q != [] {
      assert t[i..][1..] == t[i + 1..];
      if q[0] == t[i] && IsSubsequence(q[1..], t[i + 1..]) {
        SubsequenceImpliesFollows(t, i + 1, q[1..]);
      } else {
        SubsequenceImpliesSearchFrom(t, i + 1, q);
      }
    }
  }

  /** A fuzzy match only ever finds the query's characters in order. */
  lemma FuzzyMatchImpliesSubsequence(t: string, q: string)
    requires FuzzyMatch(t, q)
    ensures IsSubsequence(q, t)
  {
    SearchFromImpliesSubsequence(t, 0, q);
    assert t[0..] == t;
  }

  /** On one line of text, the fuzzy pattern matches exactly the texts that
      hold the query's characters in order. */
  lemma FuzzyMatchIffSubsequence(t: string, q: string)
    requires forall k :: 0 <= k < |t| ==> !IsLineTerminator(t[k])
    ensures FuzzyMatch(t, q) <==> IsSubsequence(q, t)
  {
    assert t[0..] == t;
    if FuzzyMatch(t, q) {
      FuzzyMatchImpliesSubsequence(t, q);
    }
    if IsSubsequence(q, t) {
      SubsequenceImpliesSearchFrom(t, 0, q);
    }
  }

  /** The fuzzy pattern does not cross a line break: "ab" does not match "a\nb". */
  lemma FuzzyMatchStopsAtLineBreak()
    ensures !FuzzyMatch("a\nb", "ab")
    ensures IsSubsequence("ab", "a\nb")
  {
    var t := "a\nb";
    assert !Follows(t, 1, "ab"[1..]);
    assert !SearchFrom(t, 3, "ab");
    assert !SearchFrom(t, 2, "ab");
    assert !SearchFrom(t, 1, "ab");
    assert !SearchFrom(t, 0, "ab");
    assert t[1..][1..] == "b";
    assert IsSubsequence("b", "b");
  }

  /** For an item whose corpus is one line and holds no Chinese characters (or
      when pinyin is unavailable), the item passes exactly when the query is
      empty or its lower-cased characters occur, in order, in the lower-cased
      corpus. */
  lemma PassesIffSubsequence(svc: TextServices, item: ListItem, searchText: string)
    requires !svc.pinyinSupported || !HasCJK(Corpus(item))
    requires forall k :: 0 <= k < |svc.lower(Corpus(item))| ==> !IsLineTerminator(svc.lower(Corpus(item))[k])
    ensures Passes(svc, item, searchText) <==>
      StripTrigger(searchText) == "" ||
      IsSubsequence(svc.lower(StripTrigger(searchText)), svc.lower(Corpus(item)))
  {
    var lt := svc.lower(Corpus(item));
    var lq := svc.lower(StripTrigger(searchText));
    FuzzyMatchIffSubsequence(lt, lq);
    if Contains(lt, lq) {
      ContainsImpliesFuzzyMatch(lt, lq);
    }
  }

  /** An item whose literal corpus contains the query passes, whatever its script. */
  lemma SubstringPasses(svc: TextServices, item: ListItem, searchText: string)
    requires Contains(svc.lower(Corpus(item)), svc.lower(StripTrigger(searchText)))
    ensures Passes(svc, item, searchText)
  {
  }

  /** An item with Chinese characters is kept when the transliteration fails,
      and otherwise passes only if the query is empty, a substring of the
      corpus, or a fuzzy match of the pinyin. */
  lemma PassesWithCJK(svc: TextServices, item: ListItem, searchText: string)
    requires svc.pinyinSupported && HasCJK(Corpus(item))
    ensures svc.pinyin(Corpus(item)).None? ==> Passes(svc, item, searchText)
    ensures svc.pinyin(Corpus(item)).Some? ==>
      (Passes(svc, item, searchText) <==>
        StripTrigger(searchText) == "" ||
        Contains(svc.lower(Corpus(item)), svc.lower(StripTrigger(searchText))) ||
        FuzzyMatch(svc.lower(svc.pinyin(Corpus(item)).value), svc.lower(StripTrigger(searchText))))
  {
  }

  /** An identity-keyed update that leaves every corpus as it was commutes
      with the filter: the cached filtered list sees the update exactly as a
      fresh filter of the updated list would. */
  lemma {:induction false} FilterCommutesWithUpdate(svc: TextServices, list: seq<ListItem>, target: ItemId,
                                                    f: ListItem -> ListItem, searchText: string)
    requires forall x :: Corpus(f(x)) == Corpus(x)
    ensures Filter(svc, ReplaceIdentical(list, target, f), searchText) ==
            ReplaceIdentical(Filter(svc, list, searchText), target, f)
    decreases |list|
  {
    if list != [] {
      var h := list[0];
      var h' := if h.id == target then f(h) else h;
      var updated := ReplaceIdentical(list, target, f);
      assert updated == [h'] + ReplaceIdentical(list[1..], target, f);
      assert updated[0] == h' && updated[1..] == ReplaceIdentical(list[1..], target, f);
      assert Corpus(h') == Corpus(h);
      assert Passes(svc, h', searchText) == Passes(svc, h, searchText);
      FilterCommutesWithUpdate(svc, list[1..], target, f, searchText);
      var rest := Filter(svc, list[1..], searchText);
      if Passes(svc, h, searchText) {
        assert ReplaceIdentical([h] + rest, target, f) == [h'] + ReplaceIdentical(rest, target, f);
      }
    }
  }
}
