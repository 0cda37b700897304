/**
 * The script store and dialogue extraction (src/context/ScriptsContext.tsx).
 *
 * The dialogue pattern `^([A-Z][A-Z\s]+)(?::|\n)\s*(.+)$` is not run here: the
 * parser takes the sequence of its matches (name group, dialogue group) and
 * models everything parseScriptText does with them.
 */
module ScriptsContext {
  import opened Prelude
  import opened ScriptTypes

  /** One match of the dialogue pattern: the name group and the dialogue group, untrimmed. */
  datatype RawMatch = RawMatch(name: string, dialogue: string)

  // ------------------------------------------------------------ character ids

  /** `.replace(/\s+/g, '-')`: each maximal run of white space becomes one dash. */
  function DashRuns(s: string): (r: string)
    ensures |r| <= |s|
    decreases |s|
  {
    if s == [] then []
    else if IsSpace(s[0]) then "-" + DashRuns(TrimStart(s[1..]))
    else [s[0]] + DashRuns(s[1..])
  }

  /** DashRuns writes only dashes and non-space characters of its input. */
  lemma {:induction false} DashRunsChars(s: string)
    ensures forall i :: 0 <= i < |DashRuns(s)| ==>
      DashRuns(s)[i] == '-' || (DashRuns(s)[i] in s && !IsSpace(DashRuns(s)[i]))
    decreases |s|
  {
    if s != [] {
      var rest := if IsSpace(s[0]) then TrimStart(s[1..]) else s[1..];
      DashRunsChars(rest);
      assert forall c :: c in rest ==> c in s by {
        if IsSpace(s[0]) {
          TrimStartSuffix(s[1..]);
        }
        assert rest == s[|s| - |rest|..];
      }
    }
  }

  /** The character id derived from a name: `char-` and the lowercased name with white-space runs dashed. */
  function Slug(name: string): string
  {
    "char-" + DashRuns(Lower(name))
  }

  /** A character id starts with `char-` and holds no white space and no capital letter. */
  lemma SlugShape(name: string)
    ensures StartsWith(Slug(name), "char-")
    ensures forall i :: 0 <= i < |Slug(name)| ==> !IsSpace(Slug(name)[i]) && !IsUpper(Slug(name)[i])
  {
    var lowered := Lower(name);
    DashRunsChars(lowered);
    LowerAt(name);
    assert forall c :: c in lowered ==> !IsUpper(c);
  }

  /** A two-word name gives the two lowercased words joined by a dash, whatever white space separated them. */
  lemma SlugOfTwoWords(first: string, gap: string, second: string)
    requires first != [] && second != []
    requires forall i :: 0 <= i < |first| ==> !IsSpace(first[i]) && !IsUpper(first[i])
    requires forall i :: 0 <= i < |second| ==> !IsSpace(second[i]) && !IsUpper(second[i])
    requires gap != [] && Blank(gap)
    ensures DashRuns(first + gap + second) == first + "-" + second
  {
    DashRunsOfWordThen(first, gap + second);
    assert first + gap + second == first + (gap + second);
    DashRunsOfGapThen(gap, second);
  }

  lemma {:induction false} DashRunsOfWordThen(w: string, rest: string)
    requires forall i :: 0 <= i < |w| ==> !IsSpace(w[i])
    ensures DashRuns(w + rest) == w + DashRuns(rest)
    decreases |w|
  {
    if w != [] {
      assert (w + rest)[1..] == w[1..] + rest;
      DashRunsOfWordThen(w[1..], rest);
      assert w == [w[0]] + w[1..];
    } else {
      assert w + rest == rest;
    }
  }

  lemma {:induction false} DashRunsOfGapThen(gap: string, w: string)
    requires gap != [] && Blank(gap)
    requires w != [] && forall i :: 0 <= i < |w| ==> !IsSpace(w[i])
    ensures DashRuns(gap + w) == "-" + w
  {
    var s := gap + w;
    assert s[1..] == gap[1..] + w;
    TrimStartOfBlankThen(gap[1..], w);
    DashRunsOfWordThen(w, []);
    assert w + [] == w;
  }

  lemma {:induction false} TrimStartOfBlankThen(gap: string, w: string)
    requires Blank(gap)
    requires w == [] || !IsSpace(w[0])
    ensures TrimStart(gap + w) == w
    decreases |gap|
  {
    if gap == [] {
      assert gap + w == w;
    } else {
      assert (gap + w)[1..] == gap[1..] + w;
      TrimStartOfBlankThen(gap[1..], w);
    }
  }

  // ------------------------------------------------------------ dialogue lines

  /** The line parseScriptText pushes for a kept match: numbered by order, typed as dialogue. */
  function MakeLine(name: string, text: string, order: nat): DialogueLine
  {
    DialogueLine("line-" + NatToString(order), Slug(name), name, text, Dialogue, order)
  }

  /** What every emitted line looks like at position i. */
  predicate NumberedAt(line: DialogueLine, i: nat)
  {
    && line.order == i + 1
    && line.id == "line-" + NatToString(i + 1)
    && line.kind == Dialogue
    && line.characterId == Slug(line.characterName)
    && line.text != [] && !IsSpace(line.text[0]) && !IsSpace(line.text[|line.text| - 1])
  }

  /** The matches whose trimmed dialogue group is not empty, in order. */
  function DialogueMatches(ms: seq<RawMatch>): (r: seq<RawMatch>)
    ensures |r| <= |ms|
    decreases |ms|
  {
    if ms == [] then []
    else
      var m := ms[|ms| - 1];
      DialogueMatches(ms[..|ms| - 1]) + (if Trim(m.dialogue) == [] then [] else [m])
  }

  /** Every kept match has a dialogue group that is not empty once trimmed, and is one of the matches. */
  lemma {:induction false} DialogueMatchesKept(ms: seq<RawMatch>)
    ensures forall i :: 0 <= i < |DialogueMatches(ms)| ==>
      Trim(DialogueMatches(ms)[i].dialogue) != [] && DialogueMatches(ms)[i] in ms
    decreases |ms|
  {
    if ms != [] {
      var p := ms[..|ms| - 1];
      DialogueMatchesKept(p);
      assert forall x :: x in p ==> x in ms;
    }
  }

  /** A kept match whose dialogue is the one after the matches before it. */
  lemma DialogueMatchesSnoc(ms: seq<RawMatch>, m: RawMatch)
    ensures DialogueMatches(ms + [m]) ==
      if Trim(m.dialogue) == [] then DialogueMatches(ms) else DialogueMatches(ms) + [m]
  {
    assert (ms + [m])[..|ms|] == ms;
    assert DialogueMatches(ms) + [] == DialogueMatches(ms);
  }

  /**
   * The lines parseScriptText emits for the matches: the k-th match with a
   * non-blank dialogue group gives line k (numbered from 1), carrying that
   * match's trimmed name and trimmed dialogue; a blank one gives no line and
   * uses no number.
   */
  function ParsedLines(ms: seq<RawMatch>): (lines: seq<DialogueLine>)
    ensures |lines| == |DialogueMatches(ms)|
  {
    LinesOf(DialogueMatches(ms))
  }

  /** The k-th kept match becomes line k + 1. */
  function LinesOf(kept: seq<RawMatch>): (lines: seq<DialogueLine>)
    ensures |lines| == |kept|
    decreases |kept|
  {
    if kept == [] then []
    else
      var m := kept[|kept| - 1];
      LinesOf(kept[..|kept| - 1]) + [MakeLine(Trim(m.name), Trim(m.dialogue), |kept|)]
  }

  lemma LinesOfSnoc(kept: seq<RawMatch>, m: RawMatch)
    ensures LinesOf(kept + [m]) == LinesOf(kept) + [MakeLine(Trim(m.name), Trim(m.dialogue), |kept| + 1)]
  {
    assert (kept + [m])[..|kept|] == kept;
  }

  /** Line k is built from the k-th kept match and numbered k + 1. */
  lemma {:induction false} LinesOfAt(kept: seq<RawMatch>, k: nat)
    requires k < |kept|
    ensures LinesOf(kept)[k] == MakeLine(Trim(kept[k].name), Trim(kept[k].dialogue), k + 1)
    decreases |kept|
  {
    if k < |kept| - 1 {
      LinesOfAt(kept[..|kept| - 1], k);
    }
  }

  /** One more match adds one line exactly when its trimmed dialogue is not empty. */
  lemma ParsedLinesSnoc(ms: seq<RawMatch>, m: RawMatch)
    ensures ParsedLines(ms + [m]) ==
      if Trim(m.dialogue) == [] then ParsedLines(ms)
      else ParsedLines(ms) + [MakeLine(Trim(m.name), Trim(m.dialogue), |ParsedLines(ms)| + 1)]
  {
    DialogueMatchesSnoc(ms, m);
    if Trim(m.dialogue) != [] {
      LinesOfSnoc(DialogueMatches(ms), m);
    }
  }

  /** Every emitted line has its position's order and id, the dialogue type, its name's slug and trimmed text. */
  lemma ParsedLinesNumbered(ms: seq<RawMatch>)
    ensures forall i :: 0 <= i < |ParsedLines(ms)| ==> NumberedAt(ParsedLines(ms)[i], i)
  {
    DialogueMatchesKept(ms);
    forall i | 0 <= i < |ParsedLines(ms)|
      ensures NumberedAt(ParsedLines(ms)[i], i)
    {
      LinesOfAt(DialogueMatches(ms), i);
    }
  }

  /** Line ids are pairwise distinct. */
  lemma LineIdsDistinct(ms: seq<RawMatch>, i: nat, j: nat)
    requires i < j < |ParsedLines(ms)|
    ensures ParsedLines(ms)[i].id != ParsedLines(ms)[j].id
  {
    var lines := ParsedLines(ms);
    var a, b := NatToString(i + 1), NatToString(j + 1);
    LinesOfAt(DialogueMatches(ms), i);
    LinesOfAt(DialogueMatches(ms), j);
    assert lines[i].id == "line-" + a && lines[j].id == "line-" + b;
    if lines[i].id == lines[j].id {
      SamePrefixThen("line-", a, b);
      NatToStringInjective(i + 1, j + 1);
    }
  }

  lemma SamePrefixThen(p: string, a: string, b: string)
    requires p + a == p + b
    ensures a == b
  {
    assert a == (p + a)[|p|..];
  }

  // ------------------------------------------------------------ characters

  /** The characterName of each line, in order. */
  function LineNames(lines: seq<DialogueLine>): (names: seq<string>)
    ensures |names| == |lines|
    decreases |lines|
  {
    if lines == [] then [] else LineNames(lines[..|lines| - 1]) + [lines[|lines| - 1].characterName]
  }

  lemma {:induction false} LineNamesAt(lines: seq<DialogueLine>, k: nat)
    requires k < |lines|
    ensures LineNames(lines)[k] == lines[k].characterName
    decreases |lines|
  {
    if k < |lines| - 1 {
      LineNamesAt(lines[..|lines| - 1], k);
    }
  }

  /** The two characters offered when no dialogue was found. */
  function Placeholders(): seq<Character>
  {
    [Character("char-1", "CHARACTER 1", Unassigned, 0, None),
     Character("char-2", "CHARACTER 2", Unassigned, 0, None)]
  }

  /** One unassigned character per key, counting the key's occurrences in names. */
  function CharactersOf(keys: seq<string>, names: seq<string>): (cs: seq<Character>)
    ensures |cs| == |keys|
    ensures forall i :: 0 <= i < |keys| ==>
      cs[i] == Character(Slug(keys[i]), keys[i], Unassigned, Count(names, keys[i]), None)
    decreases |keys|
  {
    if keys == [] then []
    else
      var k := keys[|keys| - 1];
      CharactersOf(keys[..|keys| - 1], names) + [Character(Slug(k), k, Unassigned, Count(names, k), None)]
  }

  /** The characters parseScriptText returns for its lines: the placeholders when there are none. */
  function CharactersFor(lines: seq<DialogueLine>): seq<Character>
  {
    if lines == [] then Placeholders()
    else
      var names := LineNames(lines);
      CharactersOf(Dedup(names), names)
  }

  /** Sum of lineCount over a character list. */
  function TotalLineCount(cs: seq<Character>): nat
    decreases |cs|
  {
    if cs == [] then 0 else TotalLineCount(cs[..|cs| - 1]) + cs[|cs| - 1].lineCount
  }

  lemma {:induction false} TotalOfCharactersOf(keys: seq<string>, names: seq<string>)
    ensures TotalLineCount(CharactersOf(keys, names)) == SumCounts(keys, names)
    decreases |keys|
  {
    if keys != [] {
      var cs := CharactersOf(keys, names);
      TotalOfCharactersOf(keys[..|keys| - 1], names);
      assert cs[..|cs| - 1] == CharactersOf(keys[..|keys| - 1], names);
    }
  }

  /** Each distinct name gets one unassigned character without a voice, counting at least one line. */
  lemma CharactersOfNames(names: seq<string>)
    ensures var cs := CharactersOf(Dedup(names), names);
      && (forall i, j :: 0 <= i < j < |cs| ==> cs[i].name != cs[j].name)
      && (forall i :: 0 <= i < |cs| ==> cs[i].assignedTo == Unassigned && cs[i].voiceId == None && cs[i].lineCount > 0)
  {
    var keys := Dedup(names);
    var cs := CharactersOf(keys, names);
    DedupDistinct(names);
    forall i | 0 <= i < |cs|
      ensures cs[i].lineCount > 0
    {
      assert keys[i] in names;
    }
  }

  /** Every name has the character whose id is the name's slug. */
  lemma CharactersCoverNames(names: seq<string>, k: nat)
    requires k < |names|
    ensures exists i ::
      && 0 <= i < |CharactersOf(Dedup(names), names)|
      && CharactersOf(Dedup(names), names)[i] == Character(Slug(names[k]), names[k], Unassigned, Count(names, names[k]), None)
  {
    var keys := Dedup(names);
    DedupDistinct(names);
    assert names[k] in keys;
    var i :| 0 <= i < |keys| && keys[i] == names[k];
    assert CharactersOf(keys, names)[i] == Character(Slug(names[k]), names[k], Unassigned, Count(names, names[k]), None);
  }

  /**
   * With at least one line, there is one unassigned character per distinct
   * name: the names are distinct, each line's name and id belong to one of
   * them, every character names some line, and the line counts add up to the
   * number of lines.
   */
  lemma CharactersOfLines(lines: seq<DialogueLine>)
    requires lines != []
    requires forall i :: 0 <= i < |lines| ==> lines[i].characterId == Slug(lines[i].characterName)
    ensures var cs := CharactersFor(lines);
      && (forall i, j :: 0 <= i < j < |cs| ==> cs[i].name != cs[j].name)
      && (forall i :: 0 <= i < |cs| ==> cs[i].assignedTo == Unassigned && cs[i].voiceId == None && cs[i].lineCount > 0)
      && (forall k :: 0 <= k < |lines| ==> exists i :: 0 <= i < |cs| && cs[i].name == lines[k].characterName && cs[i].id == lines[k].characterId)
      && TotalLineCount(cs) == |lines|
  {
    var names := LineNames(lines);
    var keys := Dedup(names);
    var cs := CharactersFor(lines);
    assert cs == CharactersOf(keys, names);
    CharactersOfNames(names);
    forall k | 0 <= k < |lines|
      ensures exists i :: 0 <= i < |cs| && cs[i].name == lines[k].characterName && cs[i].id == lines[k].characterId
    {
      CharactersCoverNames(names, k);
      LineNamesAt(lines, k);
    }
    TotalOfCharactersOf(keys, names);
    SumCountsOfDedup(names);
  }

  /** With no dialogue, exactly the two placeholder characters are returned. */
  lemma CharactersOfNoLines()
    ensures var cs := CharactersFor([]);
      |cs| == 2 && cs[0].name == "CHARACTER 1" && cs[1].name == "CHARACTER 2"
      && cs[0].id == "char-1" && cs[1].id == "char-2"
      && cs[0].lineCount == 0 && cs[1].lineCount == 0
  {
  }

  // ------------------------------------------------------------ parseScriptText

  /** LineNames grows by one name when a line is pushed. */
  lemma LineNamesSnoc(lines: seq<DialogueLine>, line: DialogueLine)
    ensures LineNames(lines + [line]) == LineNames(lines) + [line.characterName]
  {
    assert (lines + [line])[..|lines|] == lines;
  }

  /** Dedup grows by x exactly when x is new. */
  lemma DedupSnoc(xs: seq<string>, x: string)
    ensures Dedup(xs + [x]) == if x in xs then Dedup(xs) else Dedup(xs) + [x]
  {
    assert (xs + [x])[..|xs|] == xs;
    var d := Dedup(xs);
    DedupDistinct(xs);
    if x in xs {
      var k :| 0 <= k < |xs| && xs[k] == x;
      assert x in d;
    } else {
      assert x !in d;
    }
  }

  /** The per-name counter after the given names: `counts[name] = (counts[name] || 0) + 1` for each in turn. */
  function CountMap(names: seq<string>): map<string, nat>
    decreases |names|
  {
    if names == [] then map[]
    else
      var counts := CountMap(names[..|names| - 1]);
      var name := names[|names| - 1];
      counts[name := (if name in counts then counts[name] else 0) + 1]
  }

  /** The counter holds exactly the names seen, each with its number of occurrences. */
  lemma {:induction false} CountMapCounts(names: seq<string>)
    ensures forall n :: n in CountMap(names) <==> n in names
    ensures forall n :: n in CountMap(names) ==> CountMap(names)[n] == Count(names, n)
    decreases |names|
  {
    if names != [] {
      var prefix, name := names[..|names| - 1], names[|names| - 1];
      CountMapCounts(prefix);
      assert names == prefix + [name];
      forall n
        ensures Count(names, n) == Count(prefix, n) + (if name == n then 1 else 0)
      {
        CountSnoc(prefix, name, n);
      }
    }
  }

  /** `Object.entries(characterCounts).map(...)`: one unassigned character per key, in key order, with its count. */
  function Entries(keys: seq<string>, counts: map<string, nat>): (cs: seq<Character>)
    requires forall j :: 0 <= j < |keys| ==> keys[j] in counts
    ensures |cs| == |keys|
    decreases |keys|
  {
    if keys == [] then []
    else
      var k := keys[|keys| - 1];
      Entries(keys[..|keys| - 1], counts) + [Character(Slug(k), k, Unassigned, counts[k], None)]
  }

  /** Entries of a counter that counts names are the characters of those names. */
  lemma {:induction false} EntriesOfCounts(keys: seq<string>, counts: map<string, nat>, names: seq<string>)
    requires forall j :: 0 <= j < |keys| ==> keys[j] in counts && counts[keys[j]] == Count(names, keys[j])
    ensures Entries(keys, counts) == CharactersOf(keys, names)
    decreases |keys|
  {
    if keys != [] {
      EntriesOfCounts(keys[..|keys| - 1], counts, names);
    }
  }

  /** The entries of the counter, in first-occurrence order, are the characters CharactersFor describes. */
  lemma CharactersFromCounts(names: seq<string>)
    ensures forall j :: 0 <= j < |Dedup(names)| ==> Dedup(names)[j] in CountMap(names)
    ensures Entries(Dedup(names), CountMap(names)) == CharactersOf(Dedup(names), names)
  {
    CountMapCounts(names);
    DedupDistinct(names);
    EntriesOfCounts(Dedup(names), CountMap(names), names);
  }

  /** A match with blank dialogue leaves the lines as they are. */
  lemma ScanSkip(ms: seq<RawMatch>, m: RawMatch)
    requires Trim(m.dialogue) == []
    ensures ParsedLines(ms + [m]) == ParsedLines(ms)
  {
    ParsedLinesSnoc(ms, m);
  }

  /** A match with dialogue adds its line, and the line's name to the names. */
  lemma ScanKeep(ms: seq<RawMatch>, m: RawMatch)
    requires Trim(m.dialogue) != []
    ensures var line := MakeLine(Trim(m.name), Trim(m.dialogue), |ParsedLines(ms)| + 1);
      && ParsedLines(ms + [m]) == ParsedLines(ms) + [line]
      && LineNames(ParsedLines(ms + [m])) == LineNames(ParsedLines(ms)) + [Trim(m.name)]
  {
    ParsedLinesSnoc(ms, m);
    var line := MakeLine(Trim(m.name), Trim(m.dialogue), |ParsedLines(ms)| + 1);
    LineNamesSnoc(ParsedLines(ms), line);
  }

  /** Counting one more name adds one to its count and, for a new name, appends it to the keys. */
  lemma CountStep(names: seq<string>, name: string)
    ensures var counts := CountMap(names);
      && CountMap(names + [name]) == counts[name := (if name in counts then counts[name] else 0) + 1]
      && Dedup(names + [name]) == if name in counts then Dedup(names) else Dedup(names) + [name]
  {
    assert (names + [name])[..|names|] == names;
    CountMapCounts(names);
    DedupSnoc(names, name);
  }

  /** CountStep, for a counter and keys already known to be those of the names. */
  lemma CountStepTo(names: seq<string>, name: string, counts: map<string, nat>, keyOrder: seq<string>,
                    counts': map<string, nat>, keyOrder': seq<string>)
    requires counts == CountMap(names) && keyOrder == Dedup(names)
    requires counts' == counts[name := (if name in counts then counts[name] else 0) + 1]
    requires keyOrder' == if name in counts then keyOrder else keyOrder + [name]
    ensures CountMap(names + [name]) == counts' && Dedup(names + [name]) == keyOrder'
  {
    CountStep(names, name);
  }

  /**
   * parseScriptText after the pattern scan: the lines and the per-name
   * counter, then one character per counter key, in key order.
   */
  method ParseScriptText(matches: seq<RawMatch>) returns (characters: seq<Character>, lines: seq<DialogueLine>)
    ensures lines == ParsedLines(matches)
    ensures characters == CharactersFor(lines)
  {
    var characterCounts, keyOrder;
    lines, characterCounts, keyOrder := ScanMatches(matches);
    if |lines| == 0 {
      characters := Placeholders();
      return;
    }
    CharactersFromCounts(LineNames(lines));
    characters := Entries(keyOrder, characterCounts);
  }

  /** What parseScriptText's loop carries from one match to the next. */
  datatype ScanState = ScanState(lines: seq<DialogueLine>, counts: map<string, nat>, keyOrder: seq<string>, order: nat)

  /**
   * The loop body for one match: a match whose dialogue trims to nothing is
   * skipped; otherwise its line is numbered with the running order and its
   * trimmed name is counted, a new name joining the end of the keys.
   */
  function ScanStep(st: ScanState, m: RawMatch): ScanState {
    var name := Trim(m.name);
    var text := Trim(m.dialogue);
    if text == [] then st
    else ScanState(
      st.lines + [MakeLine(name, text, st.order)],
      st.counts[name := (if name in st.counts then st.counts[name] else 0) + 1],
      if name in st.counts then st.keyOrder else st.keyOrder + [name],
      st.order + 1)
  }

  /** The loop's state after the given matches. */
  function ScanOf(ms: seq<RawMatch>): ScanState
    decreases |ms|
  {
    if ms == [] then ScanState([], map[], [], 1)
    else ScanStep(ScanOf(ms[..|ms| - 1]), ms[|ms| - 1])
  }

  lemma ScanOfSnoc(ms: seq<RawMatch>, m: RawMatch)
    ensures ScanOf(ms + [m]) == ScanStep(ScanOf(ms), m)
  {
    assert (ms + [m])[..|ms|] == ms;
  }

  /** After any prefix of the matches the loop holds exactly the parsed lines and the next order number. */
  lemma {:induction false} ScanOfLines(ms: seq<RawMatch>)
    ensures ScanOf(ms).lines == ParsedLines(ms) && ScanOf(ms).order == |ScanOf(ms).lines| + 1
    decreases |ms|
  {
    if ms != [] {
      var p, m := ms[..|ms| - 1], ms[|ms| - 1];
      assert ms == p + [m];
      ScanOfLines(p);
      ParsedLinesSnoc(p, m);
    }
  }

  /** One loop step keeps the counter and the keys in step with the names of the lines. */
  lemma ScanStepCounts(st: ScanState, m: RawMatch)
    requires st.counts == CountMap(LineNames(st.lines)) && st.keyOrder == Dedup(LineNames(st.lines))
    ensures var st' := ScanStep(st, m);
      st'.counts == CountMap(LineNames(st'.lines)) && st'.keyOrder == Dedup(LineNames(st'.lines))
  {
    var name, text := Trim(m.name), Trim(m.dialogue);
    if text != [] {
      var st' := ScanStep(st, m);
      var line := MakeLine(name, text, st.order);
      LineNamesSnoc(st.lines, line);
      CountStepTo(LineNames(st.lines), name, st.counts, st.keyOrder, st'.counts, st'.keyOrder);
    }
  }

  /**
   * After any prefix of the matches the loop's counter holds the count of
   * every name of its lines, and its keys are those names in order of first
   * appearance.
   */
  lemma {:induction false} ScanOfCounts(ms: seq<RawMatch>)
    ensures var st := ScanOf(ms);
      st.counts == CountMap(LineNames(st.lines)) && st.keyOrder == Dedup(LineNames(st.lines))
    decreases |ms|
  {
    if ms == [] {
      assert LineNames([]) == [];
    } else {
      var p, m := ms[..|ms| - 1], ms[|ms| - 1];
      ScanOfCounts(p);
      ScanStepCounts(ScanOf(p), m);
    }
  }

  /**
   * After any prefix of the matches the loop holds exactly the parsed lines,
   * the next order number, the count of every speaking name and the names in
   * order of first appearance.
   */
  lemma ScanOfMeans(ms: seq<RawMatch>)
    ensures var st := ScanOf(ms);
      && st.lines == ParsedLines(ms) && st.order == |st.lines| + 1
      && st.counts == CountMap(LineNames(st.lines)) && st.keyOrder == Dedup(LineNames(st.lines))
  {
    ScanOfLines(ms);
    ScanOfCounts(ms);
  }

  /** The loop body of parseScriptText for one match, on the loop's variables. */
  method ScanOne(m: RawMatch, lines: seq<DialogueLine>, counts: map<string, nat>, keyOrder: seq<string>, order: nat)
    returns (lines': seq<DialogueLine>, counts': map<string, nat>, keyOrder': seq<string>, order': nat)
    ensures ScanState(lines', counts', keyOrder', order') == ScanStep(ScanState(lines, counts, keyOrder, order), m)
  {
    lines', counts', keyOrder', order' := lines, counts, keyOrder, order;
    var characterName := Trim(m.name);
    var dialogueText := Trim(m.dialogue);
    if dialogueText != [] {
      if characterName !in counts {
        keyOrder' := keyOrder + [characterName];
      }
      var previous := if characterName in counts then counts[characterName] else 0;
      counts' := counts[characterName := previous + 1];
      lines' := lines + [MakeLine(characterName, dialogueText, order)];
      order' := order + 1;
    }
  }

  /**
   * The loop of parseScriptText over the matches: it keeps an order number
   * and a per-name counter whose keys stay in insertion order.
   */
  method ScanMatches(matches: seq<RawMatch>) returns (lines: seq<DialogueLine>, characterCounts: map<string, nat>, keyOrder: seq<string>)
    ensures lines == ParsedLines(matches)
    ensures characterCounts == CountMap(LineNames(lines)) && keyOrder == Dedup(LineNames(lines))
  {
    lines := [];
    characterCounts := map[];
    keyOrder := [];
    var order: nat := 1;
    var i := 0;
    while i < |matches|
      invariant 0 <= i <= |matches|
      invariant ScanState(lines, characterCounts, keyOrder, order) == ScanOf(matches[..i])
    {
      assert matches[..i + 1] == matches[..i] + [matches[i]];
      ScanOfSnoc(matches[..i], matches[i]);
      lines, characterCounts, keyOrder, order := ScanOne(matches[i], lines, characterCounts, keyOrder, order);
      i := i + 1;
    }
    assert matches[..|matches|] == matches;
    ScanOfMeans(matches);
  }

  // ------------------------------------------------------------ the store

  /**
   * `file.name.replace(/\.(pdf|txt|fountain)$/i, '')`: drop one trailing
   * `.pdf`, `.txt` or `.fountain`, whatever its letter case.
   */
  function StripScriptExtension(fileName: string): (title: string)
    ensures |title| <= |fileName| && title == fileName[..|title|]
  {
    var n := |fileName|;
    if n >= 4 && Lower(fileName[n - 4..]) in {".pdf", ".txt"} then fileName[..n - 4]
    else if n >= 9 && Lower(fileName[n - 9..]) == ".fountain" then fileName[..n - 9]
    else fileName
  }

  /** A recognised extension, in any letter case, is removed and nothing else is. */
  lemma StripOfExtension(base: string, ext: string)
    requires Lower(ext) in {".pdf", ".txt", ".fountain"}
    ensures StripScriptExtension(base + ext) == base
  {
    var name := base + ext;
    assert name[|name| - |ext|..] == ext;
    assert name[..|base|] == base;
    if |ext| == 9 {
      assert name[|name| - 4..] == ext[5..9];
      LowerSlice(ext, 5, 9);
      assert Lower(name[|name| - 4..]) == "tain";
    }
  }

  /** A name without a recognised extension is kept as it is. */
  lemma StripKeepsOtherNames(fileName: string)
    requires forall ext :: ext in {".pdf", ".txt", ".fountain"} ==>
      !(|ext| <= |fileName| && Lower(fileName[|fileName| - |ext|..]) == ext)
    ensures StripScriptExtension(fileName) == fileName
  {
    assert ".pdf" in {".pdf", ".txt", ".fountain"};
    assert ".txt" in {".pdf", ".txt", ".fountain"};
    assert ".fountain" in {".pdf", ".txt", ".fountain"};
  }

  /** `prev.filter(s => s.id !== id)`. */
  function WithoutScript(scripts: seq<Script>, id: string): (r: seq<Script>)
    ensures |r| <= |scripts|
    ensures forall i :: 0 <= i < |r| ==> r[i].id != id && r[i] in scripts
    ensures forall s :: s in scripts && s.id != id ==> s in r
    decreases |scripts|
  {
    if scripts == [] then []
    else
      var s := scripts[|scripts| - 1];
      var prev := WithoutScript(scripts[..|scripts| - 1], id);
      assert scripts == scripts[..|scripts| - 1] + [s];
      if s.id == id then prev else prev + [s]
  }

  /** Filtering one more script keeps it iff its id differs. */
  lemma WithoutScriptSnoc(scripts: seq<Script>, s: Script, id: string)
    ensures WithoutScript(scripts + [s], id) == WithoutScript(scripts, id) + (if s.id == id then [] else [s])
  {
    assert (scripts + [s])[..|scripts|] == scripts;
  }

  /** Deleting keeps the other scripts in their order: the filter splits over concatenation. */
  lemma {:induction false} WithoutScriptAppend(a: seq<Script>, b: seq<Script>, id: string)
    ensures WithoutScript(a + b, id) == WithoutScript(a, id) + WithoutScript(b, id)
    decreases |b|
  {
    if b == [] {
      assert a + b == a;
    } else {
      var c, x := b[..|b| - 1], b[|b| - 1];
      assert b == c + [x];
      assert a + b == (a + c) + [x];
      WithoutScriptAppend(a, c, id);
      WithoutScriptSnoc(a + c, x, id);
      WithoutScriptSnoc(c, x, id);
    }
  }

  /** Deleting an id that no script has changes nothing. */
  lemma {:induction false} WithoutAbsentScript(scripts: seq<Script>, id: string)
    requires forall i :: 0 <= i < |scripts| ==> scripts[i].id != id
    ensures WithoutScript(scripts, id) == scripts
    decreases |scripts|
  {
    if scripts != [] {
      var p, x := scripts[..|scripts| - 1], scripts[|scripts| - 1];
      assert scripts == p + [x];
      WithoutAbsentScript(p, id);
      WithoutScriptSnoc(p, x, id);
    }
  }

  /** `scripts.find(s => s.id === id)`: the first script with the id. */
  function FindScript(scripts: seq<Script>, id: string): (r: Option<Script>)
    ensures r.None? <==> forall i :: 0 <= i < |scripts| ==> scripts[i].id != id
    ensures r.Some? ==>
      exists k :: 0 <= k < |scripts| && scripts[k] == r.value && r.value.id == id &&
        forall j :: 0 <= j < k ==> scripts[j].id != id
    decreases |scripts|
  {
    if scripts == [] then None
    else if scripts[0].id == id then Some(scripts[0])
    else
      var r := FindScript(scripts[1..], id);
      assert forall j :: 1 <= j < |scripts| ==> scripts[j] == scripts[1..][j - 1];
      r
  }

  /** After a delete, looking the id up finds nothing. */
  lemma FindAfterDelete(scripts: seq<Script>, id: string)
    ensures FindScript(WithoutScript(scripts, id), id) == None
  {
  }

  /** `Partial<Script>`: the fields an update supplies. */
  datatype ScriptPatch = ScriptPatch(
    id: Option<string>,
    title: Option<string>,
    createdAt: Option<int>,
    rawText: Option<string>,
    characters: Option<seq<Character>>,
    lines: Option<seq<DialogueLine>>,
    status: Option<ScriptStatus>)

  /** `{ ...s, ...updates, updatedAt: new Date() }`. */
  function ApplyPatch(s: Script, p: ScriptPatch, now: int): (r: Script)
    ensures r.updatedAt == now
    ensures p.id.Some? ==> r.id == p.id.value
    ensures p.id.None? ==> r.id == s.id
    ensures p.title.Some? ==> r.title == p.title.value
    ensures p.title.None? ==> r.title == s.title
    ensures p.createdAt.Some? ==> r.createdAt == p.createdAt.value
    ensures p.createdAt.None? ==> r.createdAt == s.createdAt
    ensures p.rawText.Some? ==> r.rawText == p.rawText.value
    ensures p.rawText.None? ==> r.rawText == s.rawText
    ensures p.characters.Some? ==> r.characters == p.characters.value
    ensures p.characters.None? ==> r.characters == s.characters
    ensures p.lines.Some? ==> r.lines == p.lines.value
    ensures p.lines.None? ==> r.lines == s.lines
    ensures p.status.Some? ==> r.status == p.status.value
    ensures p.status.None? ==> r.status == s.status
  {
    Script(
      id := p.id.GetOr(s.id),
      title := p.title.GetOr(s.title),
      createdAt := p.createdAt.GetOr(s.createdAt),
      updatedAt := now,
      rawText := p.rawText.GetOr(s.rawText),
      characters := p.characters.GetOr(s.characters),
      lines := p.lines.GetOr(s.lines),
      status := p.status.GetOr(s.status))
  }

  /** Applying the same patch twice is applying it once, with the later timestamp. */
  lemma ApplyPatchTwice(s: Script, p: ScriptPatch, t1: int, t2: int)
    ensures ApplyPatch(ApplyPatch(s, p, t1), p, t2) == ApplyPatch(s, p, t2)
  {
  }

  /** An empty patch only touches updatedAt. */
  lemma ApplyEmptyPatch(s: Script, now: int)
    ensures ApplyPatch(s, ScriptPatch(None, None, None, None, None, None, None), now) == s.(updatedAt := now)
  {
  }

  /** `prev.map(s => s.id === id ? patched : s)`. */
  function PatchScripts(scripts: seq<Script>, id: string, p: ScriptPatch, now: int): (r: seq<Script>)
    ensures |r| == |scripts|
    ensures forall i :: 0 <= i < |r| && scripts[i].id != id ==> r[i] == scripts[i]
    ensures forall i :: 0 <= i < |r| && scripts[i].id == id ==> r[i] == ApplyPatch(scripts[i], p, now)
    decreases |scripts|
  {
    if scripts == [] then []
    else
      var s := scripts[0];
      var rest := PatchScripts(scripts[1..], id, p, now);
      [if s.id == id then ApplyPatch(s, p, now) else s] + rest
  }

  /** An update that does not supply an id finds the patched script under the same id. */
  lemma FindAfterPatch(scripts: seq<Script>, id: string, p: ScriptPatch, now: int)
    requires p.id.None?
    ensures var found := FindScript(scripts, id);
      FindScript(PatchScripts(scripts, id, p, now), id) ==
        if found.Some? then Some(ApplyPatch(found.value, p, now)) else None
  {
    var r := PatchScripts(scripts, id, p, now);
    var found := FindScript(scripts, id);
    assert forall i :: 0 <= i < |r| ==> r[i].id == scripts[i].id;
    if found.Some? {
      var k :| 0 <= k < |scripts| && scripts[k] == found.value && found.value.id == id &&
        forall j :: 0 <= j < k ==> scripts[j].id != id;
      FindFirstAt(r, id, k);
    }
  }

  lemma FindFirstAt(scripts: seq<Script>, id: string, k: nat)
    requires k < |scripts| && scripts[k].id == id
    requires forall j :: 0 <= j < k ==> scripts[j].id != id
    ensures FindScript(scripts, id) == Some(scripts[k])
  {
    var r := FindScript(scripts, id);
    var k' :| 0 <= k' < |scripts| && scripts[k'] == r.value && r.value.id == id &&
      forall j :: 0 <= j < k' ==> scripts[j].id != id;
    assert k' == k by {
      assert !(k' < k) && !(k < k');
    }
  }

  /** The scripts cell of ScriptsProvider and the operations that replace it. */
  class ScriptStore {
    var scripts: seq<Script>

    constructor (initial: seq<Script>)
      ensures scripts == initial
    {
      scripts := initial;
    }

    /** getScript. */
    function GetScript(id: string): Option<Script>
      reads this
    {
      FindScript(scripts, id)
    }

    /**
     * addScript, given the file's name and text, the pattern matches in the
     * text and the clock reading: parse, build the script and prepend it.
     */
    method AddScript(fileName: string, text: string, matches: seq<RawMatch>, now: nat) returns (script: Script)
      modifies this
      ensures script.lines == ParsedLines(matches)
      ensures script.characters == CharactersFor(script.lines)
      ensures script.id == "script-" + NatToString(now)
      ensures script.title == StripScriptExtension(fileName)
      ensures script.createdAt == now && script.updatedAt == now && script.rawText == text
      ensures script.status == if script.lines != [] then Parsed else Uploaded
      ensures scripts == [script] + old(scripts)
    {
      var characters, lines := ParseScriptText(matches);
      script := Script(
        id := "script-" + NatToString(now),
        title := StripScriptExtension(fileName),
        createdAt := now,
        updatedAt := now,
        rawText := text,
        characters := characters,
        lines := lines,
        status := if |lines| > 0 then Parsed else Uploaded);
      scripts := [script] + scripts;
    }

    /** deleteScript. */
    method DeleteScript(id: string)
      modifies this
      ensures scripts == WithoutScript(old(scripts), id)
    {
      scripts := WithoutScript(scripts, id);
    }

    /** updateScript. */
    method UpdateScript(id: string, updates: ScriptPatch, now: int)
      modifies this
      ensures scripts == PatchScripts(old(scripts), id, updates, now)
    {
      scripts := PatchScripts(scripts, id, updates, now);
    }
  }

  /** A script just added is the one getScript returns for its id. */
  method AddThenGet(store: ScriptStore, fileName: string, text: string, matches: seq<RawMatch>, now: nat)
    modifies store
  {
    var script := store.AddScript(fileName, text, matches, now);
    assert store.GetScript(script.id) == Some(script);
    store.DeleteScript(script.id);
    assert store.GetScript(script.id) == None;
  }
}
