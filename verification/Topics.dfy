/** Topic names, topic filters and when one matches the other. */
module Topics {
  import opened Base

  const SLASH: Byte := 47
  const PLUS: Byte := 43
  const HASH: Byte := 35
  const NUL: Byte := 0

  const PLUS_LEVEL: Text := [PLUS]
  const HASH_LEVEL: Text := [HASH]

  // ---------- levels ----------

  /** The levels of a name: what stands between its slashes. */
  function Split(s: Text): (levels: seq<Text>)
    ensures |levels| >= 1
  {
    if s == [] then [[]]
    else
      var others := Split(s[1..]);
      if s[0] == SLASH then [[]] + others else [[s[0]] + others[0]] + others[1..]
  }

  function Join(levels: seq<Text>): Text
    requires |levels| >= 1
  {
    if |levels| == 1 then levels[0] else levels[0] + [SLASH] + Join(levels[1..])
  }

  /** Joining undoes splitting. */
  lemma {:induction false} JoinSplit(s: Text)
    ensures Join(Split(s)) == s
    decreases |s|
  {
    if s != [] {
      JoinSplit(s[1..]);
      var others := Split(s[1..]);
      assert [s[0]] + s[1..] == s;
      if s[0] == SLASH {
        assert Split(s)[1..] == others;
        assert [] + [SLASH] + s[1..] == s;
      } else {
        JoinLonger(s[0], others);
      }
    }
  }

  lemma Regroup(a: Text, b: Text, c: Text, d: Text)
    ensures a + b + c + d == a + (b + c + d)
  {
  }

  lemma JoinLonger(c: Byte, levels: seq<Text>)
    requires |levels| >= 1
    ensures Join([[c] + levels[0]] + levels[1..]) == [c] + Join(levels)
  {
    var longer := [[c] + levels[0]] + levels[1..];
    assert longer[0] == [c] + levels[0] && longer[1..] == levels[1..];
    if |levels| > 1 {
      Regroup([c], levels[0], [SLASH], Join(levels[1..]));
    }
  }

  lemma {:induction false} LevelsHaveNoSlash(s: Text, i: nat)
    requires i < |Split(s)|
    ensures SLASH !in Split(s)[i]
    decreases |s|
  {
    if s != [] {
      if s[0] == SLASH {
        if i > 0 {
          LevelsHaveNoSlash(s[1..], i - 1);
        }
      } else {
        LevelsHaveNoSlash(s[1..], i);
        assert i > 0 ==> Split(s)[i] == Split(s[1..])[i];
      }
    }
  }

  lemma {:induction false} SplitLevel(l: Text, rest: Text)
    requires SLASH !in l
    ensures Split(l) == [l]
    ensures Split(l + [SLASH] + rest) == [l] + Split(rest)
    decreases |l|
  {
    var s := l + [SLASH] + rest;
    if l == [] {
      assert s[1..] == rest;
    } else {
      SplitLevel(l[1..], rest);
      assert s[1..] == l[1..] + [SLASH] + rest;
      assert [l[0]] + l[1..] == l;
    }
  }

  /** Splitting and joining undo each other, so a name is determined by its
      levels and its levels by the name. */
  lemma {:induction false} SplitJoin(levels: seq<Text>)
    requires |levels| >= 1
    requires forall l <- levels :: SLASH !in l
    ensures Split(Join(levels)) == levels
    decreases |levels|
  {
    if |levels| == 1 {
      SplitLevel(levels[0], []);
    } else {
      SplitJoin(levels[1..]);
      SplitLevel(levels[0], Join(levels[1..]));
      assert [levels[0]] + levels[1..] == levels;
    }
  }

  lemma SplitInjective(s: Text, t: Text)
    requires Split(s) == Split(t)
    ensures s == t
  {
    JoinSplit(s);
    JoinSplit(t);
  }

  /** A byte that occurs in a level occurs in the name. */
  lemma {:induction false} LevelBytes(s: Text, i: nat, c: Byte)
    requires i < |Split(s)| && c in Split(s)[i]
    ensures c in s
    decreases |s|
  {
    if s != [] {
      var others := Split(s[1..]);
      if s[0] == SLASH {
        if i > 0 {
          LevelBytes(s[1..], i - 1, c);
        }
      } else if i > 0 {
        assert Split(s)[i] == others[i];
        LevelBytes(s[1..], i, c);
      } else if c != s[0] {
        LevelBytes(s[1..], 0, c);
      }
    }
  }

  // ---------- validity ----------

  predicate ValidTopic(topic: Text) {
    topic != [] && NUL !in topic
  }

  predicate HasWildcards(filter: Text) {
    PLUS in filter || HASH in filter
  }

  predicate ValidLevel(level: Text, isLast: bool) {
    && (HASH in level ==> level == HASH_LEVEL && isLast)
    && (PLUS in level ==> level == PLUS_LEVEL)
  }

  predicate ValidFilter(filter: Text) {
    && filter != []
    && NUL !in filter
    && var levels := Split(filter);
       forall i | 0 <= i < |levels| :: ValidLevel(levels[i], i == |levels| - 1)
  }

  // ---------- matching ----------

  predicate MatchParts(topic: seq<Text>, filter: seq<Text>, topicIdx: nat, filterIdx: nat)
    decreases |filter| - filterIdx
  {
    if filterIdx >= |filter| then topicIdx >= |topic|
    else if topicIdx >= |topic| then filterIdx == |filter| - 1 && filter[filterIdx] == HASH_LEVEL
    else if filter[filterIdx] == HASH_LEVEL then filterIdx == |filter| - 1
    else if filter[filterIdx] == PLUS_LEVEL then
      topic[topicIdx] != [] && MatchParts(topic, filter, topicIdx + 1, filterIdx + 1)
    else topic[topicIdx] == filter[filterIdx] && MatchParts(topic, filter, topicIdx + 1, filterIdx + 1)
  }

  predicate TopicMatches(topic: Text, filter: Text) {
    topic == filter || MatchParts(Split(topic), Split(filter), 0, 0)
  }

  // ---------- what matching means ----------

  /** '+' stands for any one non-empty level, '#' for no single level, anything
      else for itself. */
  predicate LevelMatches(topicLevel: Text, filterLevel: Text) {
    && filterLevel != HASH_LEVEL
    && (if filterLevel == PLUS_LEVEL then topicLevel != [] else topicLevel == filterLevel)
  }

  /** Level by level, with a final '#' standing for any number of further
      levels, none included. */
  predicate Meaning(topic: seq<Text>, filter: seq<Text>) {
    if filter != [] && filter[|filter| - 1] == HASH_LEVEL then
      |topic| >= |filter| - 1 && forall i | 0 <= i < |filter| - 1 :: LevelMatches(topic[i], filter[i])
    else
      |topic| == |filter| && forall i | 0 <= i < |filter| :: LevelMatches(topic[i], filter[i])
  }

  lemma {:induction false} MatchPartsFrom(topic: seq<Text>, filter: seq<Text>, k: nat)
    requires k <= |filter| && k <= |topic|
    ensures MatchParts(topic, filter, k, k) <==> Meaning(topic[k..], filter[k..])
    decreases |filter| - k
  {
    var t, f := topic[k..], filter[k..];
    if k < |filter| && k < |topic| {
      MatchPartsFrom(topic, filter, k + 1);
      var t', f' := topic[k + 1..], filter[k + 1..];
      assert t[1..] == t' && f[1..] == f';
      assert forall i | 0 <= i < |t'| :: t'[i] == t[i + 1];
      assert forall i | 0 <= i < |f'| :: f'[i] == f[i + 1];
      if f[0] != HASH_LEVEL {
        assert Meaning(t, f) <==> LevelMatches(t[0], f[0]) && Meaning(t', f') by {
          MeaningStep(t, f);
        }
      } else if k < |filter| - 1 {
        assert !LevelMatches(t[0], f[0]);
      }
    }
  }

  lemma MeaningStep(t: seq<Text>, f: seq<Text>)
    requires t != [] && f != [] && f[0] != HASH_LEVEL
    ensures Meaning(t, f) <==> LevelMatches(t[0], f[0]) && Meaning(t[1..], f[1..])
  {
    var t', f' := t[1..], f[1..];
    if Meaning(t, f) {
      forall i | 0 <= i < |f'| && i < |t'| && (f'[|f'| - 1] == HASH_LEVEL ==> i < |f'| - 1)
        ensures LevelMatches(t'[i], f'[i])
      {
        assert LevelMatches(t[i + 1], f[i + 1]);
      }
    }
    if LevelMatches(t[0], f[0]) && Meaning(t', f') {
      forall i | 0 <= i < |f| && i < |t| && (f[|f| - 1] == HASH_LEVEL ==> i < |f| - 1)
        ensures LevelMatches(t[i], f[i])
      {
        if i > 0 {
          assert LevelMatches(t'[i - 1], f'[i - 1]);
        }
      }
    }
  }

  /** The recursive matcher computes the level-by-level meaning, for every list
      of topic levels and every list of filter levels, valid or not. */
  lemma MatchPartsMeaning(topic: seq<Text>, filter: seq<Text>)
    ensures MatchParts(topic, filter, 0, 0) <==> Meaning(topic, filter)
  {
    MatchPartsFrom(topic, filter, 0);
    assert topic[0..] == topic && filter[0..] == filter;
  }

  predicate HashOnlyLast(levels: seq<Text>) {
    forall i | 0 <= i < |levels| - 1 :: levels[i] != HASH_LEVEL
  }

  lemma SelfMeaning(levels: seq<Text>)
    requires |levels| >= 1
    ensures Meaning(levels, levels) <==> HashOnlyLast(levels)
  {
    if !HashOnlyLast(levels) {
      var i :| 0 <= i < |levels| - 1 && levels[i] == HASH_LEVEL;
      assert !LevelMatches(levels[i], levels[i]);
    }
  }

  /** The shortcut for a topic equal to the filter changes no answer exactly
      when '#' stands nowhere but at the end of the filter. */
  lemma ShortcutRedundant(filter: Text)
    ensures (forall topic :: TopicMatches(topic, filter) <==> Meaning(Split(topic), Split(filter)))
       <==> HashOnlyLast(Split(filter))
  {
    forall topic
      ensures TopicMatches(topic, filter) <==> topic == filter || Meaning(Split(topic), Split(filter))
    {
      MatchPartsMeaning(Split(topic), Split(filter));
    }
    SelfMeaning(Split(filter));
    if !HashOnlyLast(Split(filter)) {
      assert TopicMatches(filter, filter) && !Meaning(Split(filter), Split(filter));
    }
  }

  lemma HashOnlyAtEnd(filter: Text)
    requires ValidFilter(filter)
    ensures HashOnlyLast(Split(filter))
  {
    var levels := Split(filter);
    forall i | 0 <= i < |levels| - 1
      ensures levels[i] != HASH_LEVEL
    {
      assert ValidLevel(levels[i], i == |levels| - 1);
      assert HASH in HASH_LEVEL;
    }
  }

  /** For a valid filter, matching is the level-by-level meaning. */
  lemma ValidFilterMeaning(topic: Text, filter: Text)
    requires ValidFilter(filter)
    ensures TopicMatches(topic, filter) <==> Meaning(Split(topic), Split(filter))
  {
    HashOnlyAtEnd(filter);
    ShortcutRedundant(filter);
  }

  /** A filter without wildcards matches one topic: itself. */
  lemma LiteralFilter(topic: Text, filter: Text)
    requires !HasWildcards(filter)
    ensures TopicMatches(topic, filter) <==> topic == filter
  {
    var f := Split(filter);
    forall i | 0 <= i < |f|
      ensures f[i] != HASH_LEVEL && f[i] != PLUS_LEVEL
    {
      assert HASH in HASH_LEVEL && PLUS in PLUS_LEVEL;
      if f[i] == HASH_LEVEL {
        LevelBytes(filter, i, HASH);
      } else if f[i] == PLUS_LEVEL {
        LevelBytes(filter, i, PLUS);
      }
    }
    var t := Split(topic);
    MatchPartsMeaning(t, f);
    if Meaning(t, f) {
      assert forall i | 0 <= i < |f| :: LevelMatches(t[i], f[i]);
      assert t == f;
      SplitInjective(topic, filter);
    }
  }

  // ---------- '+' and the empty level ----------

  /** Section 4.7.1 of MQTT 3.1.1 lets '+' stand for any one level, the empty
      one included. */
  predicate StandardLevel(topicLevel: Text, filterLevel: Text) {
    filterLevel != HASH_LEVEL && (filterLevel == PLUS_LEVEL || topicLevel == filterLevel)
  }

  predicate Standard(topic: seq<Text>, filter: seq<Text>) {
    if filter != [] && filter[|filter| - 1] == HASH_LEVEL then
      |topic| >= |filter| - 1 && forall i | 0 <= i < |filter| - 1 :: StandardLevel(topic[i], filter[i])
    else
      |topic| == |filter| && forall i | 0 <= i < |filter| :: StandardLevel(topic[i], filter[i])
  }

  /** Some '+' of the filter stands where the topic has an empty level. */
  predicate PlusFacesEmpty(topic: seq<Text>, filter: seq<Text>) {
    exists i | 0 <= i < |filter| && i < |topic| :: filter[i] == PLUS_LEVEL && topic[i] == []
  }

  lemma MeaningIsStandard(topic: seq<Text>, filter: seq<Text>)
    ensures Meaning(topic, filter) <==> Standard(topic, filter) && !PlusFacesEmpty(topic, filter)
  {
    forall i | 0 <= i < |filter| && i < |topic|
      ensures LevelMatches(topic[i], filter[i])
         <==> StandardLevel(topic[i], filter[i]) && !(filter[i] == PLUS_LEVEL && topic[i] == [])
    {
    }
    assert HASH_LEVEL[0] != PLUS_LEVEL[0];
  }

  /** For a valid filter the broker misses, of what matches by the standard,
      exactly the topics in which a '+' faces an empty level. */
  lemma PlusNeedsContent(topic: Text, filter: Text)
    requires ValidFilter(filter)
    ensures TopicMatches(topic, filter)
       <==> Standard(Split(topic), Split(filter)) && !PlusFacesEmpty(Split(topic), Split(filter))
    ensures (TopicMatches(topic, filter) <==> Standard(Split(topic), Split(filter)))
       <==> !(Standard(Split(topic), Split(filter)) && PlusFacesEmpty(Split(topic), Split(filter)))
  {
    ValidFilterMeaning(topic, filter);
    MeaningIsStandard(Split(topic), Split(filter));
  }

  /** The topic "/a" and the filter "+/a": valid both, a match by the standard,
      and none for the broker. */
  lemma PlusMissesEmpty()
    ensures var topic, filter := [SLASH, 97], [PLUS, SLASH, 97];
            && ValidTopic(topic) && ValidFilter(filter)
            && Standard(Split(topic), Split(filter)) && !TopicMatches(topic, filter)
  {
    var topic, filter: Text := [SLASH, 97], [PLUS, SLASH, 97];
    SplitLevel([97], []);
    SplitLevel([], [97]);
    SplitLevel([PLUS], [97]);
    assert topic == [] + [SLASH] + [97] && filter == [PLUS] + [SLASH] + [97];
    assert Split(topic) == [[], [97]] && Split(filter) == [[PLUS], [97]];
    assert PlusFacesEmpty(Split(topic), Split(filter)) by {
      assert Split(filter)[0] == PLUS_LEVEL && Split(topic)[0] == [];
    }
    PlusNeedsContent(topic, filter);
  }

  /** The broker matches every valid topic as the standard does. */
  ghost predicate AgreesWithStandard(filter: Text) {
    forall topic | ValidTopic(topic) :: TopicMatches(topic, filter) <==> Standard(Split(topic), Split(filter))
  }

  /** The levels of a filter with nothing in place of its wildcards. */
  function Emptied(levels: seq<Text>): seq<Text> {
    seq(|levels|, i requires 0 <= i < |levels| =>
      if levels[i] == PLUS_LEVEL || levels[i] == HASH_LEVEL then [] else levels[i])
  }

  lemma {:induction false} JoinBytes(levels: seq<Text>, c: Byte)
    requires |levels| >= 1 && c != SLASH && forall l <- levels :: c !in l
    ensures c !in Join(levels)
    decreases |levels|
  {
    if |levels| > 1 {
      JoinBytes(levels[1..], c);
    }
  }

  lemma JoinedIsLonger(levels: seq<Text>)
    requires |levels| >= 2
    ensures Join(levels) != []
  {
    assert Join(levels)[|levels[0]|] == SLASH;
  }

  /** Emptying the wildcards of a valid filter of several levels gives the levels
      of a valid topic. */
  lemma EmptiedIsTopic(filter: Text)
    requires ValidFilter(filter) && |Split(filter)| >= 2
    ensures var topic := Join(Emptied(Split(filter))); ValidTopic(topic) && Split(topic) == Emptied(Split(filter))
  {
    var f := Split(filter);
    var levels := Emptied(f);
    forall i | 0 <= i < |f|
      ensures SLASH !in levels[i] && NUL !in levels[i]
    {
      LevelsHaveNoSlash(filter, i);
      if NUL in f[i] {
        LevelBytes(filter, i, NUL);
      }
    }
    SplitJoin(levels);
    JoinBytes(levels, NUL);
    JoinedIsLonger(levels);
  }

  /** A valid filter with '+' on one of its several levels misses a topic. */
  lemma PlusMissesTopic(filter: Text, i: nat)
    requires ValidFilter(filter) && |Split(filter)| >= 2 && i < |Split(filter)| && Split(filter)[i] == PLUS_LEVEL
    ensures !AgreesWithStandard(filter)
  {
    var f := Split(filter);
    var topic := Join(Emptied(f));
    EmptiedIsTopic(filter);
    HashOnlyAtEnd(filter);
    assert Standard(Emptied(f), f);
    assert PlusFacesEmpty(Emptied(f), f) by {
      assert f[i] == PLUS_LEVEL && Emptied(f)[i] == [];
    }
    PlusNeedsContent(topic, filter);
  }

  /** For a valid filter the broker agrees with section 4.7.1 on all valid topics
      exactly if no level of the filter is '+' or the filter is "+" alone. */
  lemma PlusFreeAgrees(filter: Text)
    requires ValidFilter(filter)
    ensures AgreesWithStandard(filter) <==> PLUS_LEVEL !in Split(filter) || filter == PLUS_LEVEL
  {
    var f := Split(filter);
    if PLUS_LEVEL in f && |f| >= 2 {
      var i :| 0 <= i < |f| && f[i] == PLUS_LEVEL;
      PlusMissesTopic(filter, i);
      SplitLevel(PLUS_LEVEL, []);
    } else {
      JoinSplit(filter);
      forall topic | ValidTopic(topic)
        ensures TopicMatches(topic, filter) <==> Standard(Split(topic), f)
      {
        PlusNeedsContent(topic, filter);
        JoinSplit(topic);
      }
    }
  }

  // ---------- which names are valid ----------

  lemma {:induction false} JoinHas(levels: seq<Text>, i: nat, c: Byte)
    requires i < |levels| && c in levels[i]
    ensures c in Join(levels)
    decreases |levels|
  {
    if i > 0 {
      JoinHas(levels[1..], i - 1, c);
    }
  }

  lemma NameOfLevels(levels: seq<Text>)
    requires |levels| >= 1 && forall l <- levels :: SLASH !in l
    ensures Split(Join(levels)) == levels
    ensures Join(levels) == [] <==> levels == [[]]
    ensures NUL in Join(levels) <==> exists i | 0 <= i < |levels| :: NUL in levels[i]
  {
    SplitJoin(levels);
    if |levels| >= 2 {
      JoinedIsLonger(levels);
    }
    if i :| 0 <= i < |levels| && NUL in levels[i] {
      JoinHas(levels, i, NUL);
    } else {
      JoinBytes(levels, NUL);
    }
  }

  /** The valid topic names are the joins of levels without the character NUL, but
      for the empty name. */
  lemma TopicsOfLevels(levels: seq<Text>)
    requires |levels| >= 1 && forall l <- levels :: SLASH !in l
    ensures ValidTopic(Join(levels)) <==> levels != [[]] && forall i | 0 <= i < |levels| :: NUL !in levels[i]
  {
    NameOfLevels(levels);
  }

  /** The valid filters are those in which, besides, every level is '+', or '#' in
      the last place, or without either character (section 4.7.1 of MQTT 3.1.1). */
  lemma FiltersOfLevels(levels: seq<Text>)
    requires |levels| >= 1 && forall l <- levels :: SLASH !in l
    ensures ValidFilter(Join(levels))
       <==> && levels != [[]]
            && forall i | 0 <= i < |levels| ::
                 && NUL !in levels[i]
                 && (levels[i] == [PLUS] || (levels[i] == [HASH] && i == |levels| - 1)
                     || (PLUS !in levels[i] && HASH !in levels[i]))
  {
    NameOfLevels(levels);
    assert PLUS in PLUS_LEVEL && HASH in HASH_LEVEL && HASH !in PLUS_LEVEL && PLUS !in HASH_LEVEL;
    forall i | 0 <= i < |levels|
      ensures ValidLevel(levels[i], i == |levels| - 1)
         <==> levels[i] == [PLUS] || (levels[i] == [HASH] && i == |levels| - 1)
              || (PLUS !in levels[i] && HASH !in levels[i])
    {
    }
  }
}
