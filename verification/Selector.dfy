/**
  * The selector logic that both launchers share word for word: cleaning the
  * lines of the champion list file, the stable case-insensitive filter, the
  * clamped cursor arithmetic and the two URL templates.
  */
module Selector {
  import opened PyStr

  /** What reading `champions.txt` produced: its raw lines (each still carrying its line break), or the failure. */
  datatype ReadResult =
    | Lines(lines: seq<string>)
    | FileNotFound
    | ReadFailed(message: string)

  // ----- Stable selection: the shape of a Python list comprehension with an `if` -----

  /** `[x for x in s if keep(x)]`. */
  function Select<T>(s: seq<T>, keep: T -> bool): (r: seq<T>)
    ensures |r| <= |s|
    ensures forall k :: 0 <= k < |r| ==> keep(r[k])
  {
    if s == [] then [] else (if keep(s[0]) then [s[0]] else []) + Select(s[1..], keep)
  }

  /** Every element `Select` keeps comes from `s`. */
  lemma {:induction false} SelectSubset<T>(s: seq<T>, keep: T -> bool)
    ensures forall k :: 0 <= k < |Select(s, keep)| ==> Select(s, keep)[k] in s
  {
    if s != [] {
      SelectSubset(s[1..], keep);
    }
  }

  /** The positions of `s` whose element satisfies `keep`, in increasing order. */
  function SelectIndices<T>(s: seq<T>, keep: T -> bool): seq<nat> {
    if s == [] then [] else (if keep(s[0]) then [0] else []) + Shift(SelectIndices(s[1..], keep))
  }

  function Shift(idx: seq<nat>): seq<nat> {
    seq(|idx|, k requires 0 <= k < |idx| => idx[k] + 1)
  }

  ghost predicate StrictlyIncreasing(idx: seq<nat>) {
    forall k, l :: 0 <= k < l < |idx| ==> idx[k] < idx[l]
  }

  /**
    * `Select` keeps exactly the elements satisfying `keep`, each once and in
    * their original order: the k-th result is the element at the k-th
    * satisfying position, and a position is used iff its element satisfies `keep`.
    */
  ghost predicate IsStableSelection<T>(s: seq<T>, keep: T -> bool, r: seq<T>, idx: seq<nat>) {
    |idx| == |r| && StrictlyIncreasing(idx) &&
    (forall k :: 0 <= k < |idx| ==> idx[k] < |s| && r[k] == s[idx[k]]) &&
    (forall i :: 0 <= i < |s| ==> (keep(s[i]) <==> i in idx))
  }

  /** Shifting the positions found in `s[1..]` by one gives the same selection within `s`, away from position 0. */
  lemma ShiftedSelection<T>(s: seq<T>, keep: T -> bool, tail: seq<T>, tailIdx: seq<nat>)
    requires s != [] && IsStableSelection(s[1..], keep, tail, tailIdx)
    ensures var shifted := Shift(tailIdx);
      |shifted| == |tail| && StrictlyIncreasing(shifted) &&
      (forall k :: 0 <= k < |shifted| ==> 1 <= shifted[k] < |s| && tail[k] == s[shifted[k]]) &&
      (forall i :: 1 <= i < |s| ==> (keep(s[i]) <==> i in shifted))
  {
    var shifted := Shift(tailIdx);
    forall i | 1 <= i < |s| ensures keep(s[i]) <==> i in shifted {
      assert s[i] == s[1..][i - 1];
      if i in shifted {
        var k :| 0 <= k < |shifted| && shifted[k] == i;
        assert tailIdx[k] == i - 1;
      }
      if i - 1 in tailIdx {
        var k :| 0 <= k < |tailIdx| && tailIdx[k] == i - 1;
        assert shifted[k] == i;
      }
    }
  }

  lemma {:induction false} SelectIsStable<T>(s: seq<T>, keep: T -> bool)
    ensures IsStableSelection(s, keep, Select(s, keep), SelectIndices(s, keep))
  {
    if s != [] {
      var tail, tailIdx := Select(s[1..], keep), SelectIndices(s[1..], keep);
      SelectIsStable(s[1..], keep);
      ShiftedSelection(s, keep, tail, tailIdx);
      if keep(s[0]) {
        HeadKept(s, keep, tail, Shift(tailIdx));
      } else {
        assert 0 !in Shift(tailIdx);
      }
    }
  }

  lemma HeadKept<T>(s: seq<T>, keep: T -> bool, tail: seq<T>, shifted: seq<nat>)
    requires s != [] && keep(s[0])
    requires |shifted| == |tail| && StrictlyIncreasing(shifted)
    requires forall k :: 0 <= k < |shifted| ==> 1 <= shifted[k] < |s| && tail[k] == s[shifted[k]]
    requires forall i :: 1 <= i < |s| ==> (keep(s[i]) <==> i in shifted)
    ensures IsStableSelection(s, keep, [s[0]] + tail, [0] + shifted)
  {
  }

  // ----- Loading the list file -----

  predicate NonBlank(t: string) { t != [] }

  /** The stripped form of every line, in file order. */
  function StrippedLines(lines: seq<string>): (r: seq<string>)
    ensures |r| == |lines|
    ensures forall k :: 0 <= k < |r| ==> IsStripped(r[k])
  {
    seq(|lines|, i requires 0 <= i < |lines| => Strip(lines[i]))
  }

  /** `[line.strip() for line in f if line.strip()]`. */
  function CleanLines(lines: seq<string>): seq<string> {
    Select(StrippedLines(lines), NonBlank)
  }

  /**
    * `_load_list`: the cleaned lines on success, none of them empty or padded
    * and no more of them than the file has lines; both error branches fall
    * back to the empty list.
    */
  function LoadList(src: ReadResult): (names: seq<string>)
    ensures forall k :: 0 <= k < |names| ==> names[k] != [] && IsStripped(names[k])
    ensures src.Lines? ==> |names| <= |src.lines|
    ensures !src.Lines? ==> names == []
  {
    match src
    case Lines(lines) => SelectSubset(StrippedLines(lines), NonBlank); CleanLines(lines)
    case FileNotFound => []
    case ReadFailed(_) => []
  }

  /**
    * The loaded list of a readable file is exactly the stripped forms of its
    * non-blank lines, in file order.
    */
  lemma LoadListExact(src: ReadResult)
    ensures src.Lines? ==>
      var names, idx := LoadList(src), SelectIndices(StrippedLines(src.lines), NonBlank);
      |idx| == |names| && StrictlyIncreasing(idx) &&
      (forall k :: 0 <= k < |idx| ==> idx[k] < |src.lines| && names[k] == Strip(src.lines[idx[k]])) &&
      (forall i :: 0 <= i < |src.lines| ==> (Strip(src.lines[i]) != [] <==> i in idx))
  {
    if src.Lines? {
      SelectIsStable(StrippedLines(src.lines), NonBlank);
    }
  }

  // ----- Filtering -----

  /** `entry.get().strip().lower()`: the query actually matched, unpadded and without capitals. */
  function NormalizedQuery(entryText: string): (query: string)
    ensures IsStripped(query) && |query| <= |entryText|
    ensures forall i :: 0 <= i < |query| ==> !IsUpper(query[i])
  {
    LowerStripped(Strip(entryText));
    Lower(Strip(entryText))
  }

  /** `query in c.lower()`. */
  predicate Matches(query: string, name: string) {
    Contains(Lower(name), query)
  }

  function MatcherFor(query: string): string -> bool {
    name => Matches(query, name)
  }

  /**
    * `_filter_list`'s comprehension: the full list for an empty query,
    * otherwise the matching names. Every result is a name of the list, and it
    * contains the normalised query.
    */
  function FilterNames(names: seq<string>, entryText: string): (r: seq<string>)
    ensures |r| <= |names|
    ensures forall k :: 0 <= k < |r| ==> r[k] in names && Matches(NormalizedQuery(entryText), r[k])
  {
    var query := NormalizedQuery(entryText);
    if query == [] then names else SelectSubset(names, MatcherFor(query)); Select(names, MatcherFor(query))
  }

  /**
    * A query that is empty after stripping gives back the full list; otherwise
    * the result is the order-preserving sublist of exactly those names whose
    * lower-case form contains the normalised query.
    */
  lemma FilterNamesExact(names: seq<string>, entryText: string)
    ensures (forall i :: 0 <= i < |entryText| ==> IsSpace(entryText[i])) ==> FilterNames(names, entryText) == names
    ensures var query := NormalizedQuery(entryText);
      query != [] ==>
        var r, idx := FilterNames(names, entryText), SelectIndices(names, MatcherFor(query));
        |idx| == |r| && StrictlyIncreasing(idx) &&
        (forall k :: 0 <= k < |idx| ==> idx[k] < |names| && r[k] == names[idx[k]]) &&
        (forall i :: 0 <= i < |names| ==> (Contains(Lower(names[i]), query) <==> i in idx))
  {
    StripExact(entryText);
    var query := NormalizedQuery(entryText);
    if query != [] {
      SelectIsStable(names, MatcherFor(query));
    }
  }

  /**
    * The source's special case for an empty query is a shortcut: the empty
    * string is contained in every name, so the comprehension alone would also
    * give back the full list.
    */
  lemma {:induction false} EmptyQueryMatchesAll(names: seq<string>)
    ensures Select(names, MatcherFor([])) == names
  {
    if names != [] {
      assert Lower(names[0])[..0] == [];
      assert MatcherFor([])(names[0]);
      EmptyQueryMatchesAll(names[1..]);
      assert names == [names[0]] + names[1..];
    }
  }

  /** Selecting with a test every element passes gives the sequence back. */
  lemma {:induction false} SelectAll<T>(s: seq<T>, keep: T -> bool)
    requires forall k :: 0 <= k < |s| ==> keep(s[k])
    ensures Select(s, keep) == s
  {
    if s != [] {
      SelectAll(s[1..], keep);
      assert s == [s[0]] + s[1..];
    }
  }

  /** Selection distributes over concatenation. */
  lemma {:induction false} SelectSplit<T>(a: seq<T>, b: seq<T>, keep: T -> bool)
    ensures Select(a + b, keep) == Select(a, keep) + Select(b, keep)
  {
    if a == [] {
      assert a + b == b;
    } else {
      var head := if keep(a[0]) then [a[0]] else [];
      SelectSplit(a[1..], b, keep);
      assert (a + b)[0] == a[0] && (a + b)[1..] == a[1..] + b;
      calc {
        Select(a + b, keep);
        head + Select(a[1..] + b, keep);
        head + (Select(a[1..], keep) + Select(b, keep));
        (head + Select(a[1..], keep)) + Select(b, keep);
      }
    }
  }

  /** The lines of a file that lists `names` one per line. */
  function FileLines(names: seq<string>): (lines: seq<string>)
    ensures |lines| == |names|
  {
    seq(|names|, k requires 0 <= k < |names| => names[k] + "\n")
  }

  /** A file listing clean names one per line loads as exactly those names. */
  lemma LoadFileLines(names: seq<string>)
    requires forall k :: 0 <= k < |names| ==> names[k] != [] && IsStripped(names[k])
    ensures LoadList(Lines(FileLines(names))) == names
  {
    var lines := FileLines(names);
    forall k | 0 <= k < |names| ensures Strip(lines[k]) == names[k] {
      StripLine(names[k], '\n');
    }
    assert StrippedLines(lines) == names;
    SelectAll(names, NonBlank);
  }

  /** A query typed without surrounding whitespace or upper-case ASCII letters is matched exactly as typed. */
  lemma NormalizedCleanQuery(entryText: string)
    requires IsStripped(entryText)
    requires forall i :: 0 <= i < |entryText| ==> !IsUpper(entryText[i])
    ensures NormalizedQuery(entryText) == entryText
  {
    StripStripped(entryText);
    LowerWithoutUpper(entryText);
  }

  /** A file listing Ahri, Akali and Kaisa loads as those three names. */
  lemma ExampleLoad(names: seq<string>)
    requires names == ["Ahri", "Akali", "Kaisa"]
    ensures LoadList(Lines(FileLines(names))) == names
  {
    assert forall k :: 0 <= k < |names| ==> names[k] != [] && IsStripped(names[k]);
    LoadFileLines(names);
  }

  lemma ExampleMatches(names: seq<string>)
    requires names == ["Ahri", "Akali", "Kaisa"]
    ensures !Matches("ka", names[0]) && Matches("ka", names[1]) && Matches("ka", names[2])
  {
    assert Lower(names[0]) == "ahri";
    NotContainsMissingChar("ahri", "ka", 0);
    assert Lower(names[1]) == "akali";
    assert "akali"[1..] == "kali" && "kali"[..2] == "ka";
    assert Lower(names[2]) == "kaisa";
    assert "kaisa"[..2] == "ka";
  }

  lemma SelectLastTwo<T>(s: seq<T>, keep: T -> bool)
    requires |s| == 3 && !keep(s[0]) && keep(s[1]) && keep(s[2])
    ensures Select(s, keep) == s[1..]
  {
    assert s[1..][1..][1..] == [];
    assert Select(s[1..][1..], keep) == [s[2]];
  }

  /** Typing "ka" over Ahri, Akali and Kaisa keeps Akali and Kaisa, in that order. */
  lemma ExampleFilter(names: seq<string>, entryText: string)
    requires names == ["Ahri", "Akali", "Kaisa"] && entryText == "ka"
    ensures FilterNames(names, entryText) == ["Akali", "Kaisa"]
  {
    assert IsStripped(entryText) && !IsUpper(entryText[0]) && !IsUpper(entryText[1]);
    NormalizedCleanQuery(entryText);
    ExampleMatches(names);
    SelectLastTwo(names, MatcherFor("ka"));
  }

  lemma SelectFirstOnly<T>(s: seq<T>, keep: T -> bool)
    requires |s| == 3 && keep(s[0]) && !keep(s[1]) && !keep(s[2])
    ensures Select(s, keep) == [s[0]]
  {
    assert s[1..][1..][1..] == [];
    assert Select(s[1..][1..], keep) == [];
  }

  lemma ExampleNarrowMatches(names: seq<string>)
    requires names == ["Ahri", "Akali", "Kaisa"]
    ensures Matches("ah", names[0]) && !Matches("ah", names[1]) && !Matches("ah", names[2])
  {
    assert Lower(names[0]) == "ahri" && "ahri"[..2] == "ah";
    assert Lower(names[1]) == "akali";
    NotContainsMissingChar("akali", "ah", 1);
    assert Lower(names[2]) == "kaisa";
    NotContainsMissingChar("kaisa", "ah", 1);
  }

  /** Typing "ah" over Ahri, Akali and Kaisa keeps only Ahri. */
  lemma ExampleNarrowingFilter(names: seq<string>, entryText: string)
    requires names == ["Ahri", "Akali", "Kaisa"] && entryText == "ah"
    ensures FilterNames(names, entryText) == ["Ahri"]
  {
    assert IsStripped(entryText) && !IsUpper(entryText[0]) && !IsUpper(entryText[1]);
    NormalizedCleanQuery(entryText);
    ExampleNarrowMatches(names);
    SelectFirstOnly(names, MatcherFor("ah"));
  }

  // ----- Cursor arithmetic -----

  /** `max(0, min(len - 1, x))`: the cursor position after a move on a list of `len` rows. */
  function ClampIndex(x: int, len: nat): (r: nat)
    ensures len > 0 ==> r < len
    ensures len == 0 ==> r == 0
    ensures 0 <= x < len ==> r == x
    ensures x < 0 ==> r == 0
    ensures len > 0 && x >= len ==> r == len - 1
  {
    var m := if len - 1 < x then len - 1 else x;
    if m < 0 then 0 else m
  }

  /** The cursor after `k` successive moves by `direction` from `i`: in range after any move on a non-empty list. */
  function Moves(i: int, direction: int, len: nat, k: nat): (r: int)
    ensures k == 0 ==> r == i
    ensures k > 0 && len > 0 ==> 0 <= r < len
    decreases k
  {
    if k == 0 then i else Moves(ClampIndex(i + direction, len), direction, len, k - 1)
  }

  /**
    * Repeated moves never wrap: moving down `k` times from an in-range cursor
    * stops at the last row, moving up stops at the first.
    */
  lemma {:induction false} MovesPin(i: int, len: nat, k: nat)
    requires 0 <= i < len
    ensures Moves(i, 1, len, k) == if i + k < len then i + k else len - 1
    ensures Moves(i, -1, len, k) == if i - k > 0 then i - k else 0
    decreases k
  {
    if k > 0 {
      MovesPin(ClampIndex(i + 1, len), len, k - 1);
      MovesPin(ClampIndex(i - 1, len), len, k - 1);
    }
  }

  /** One arrow key puts a cursor that is past the end of a non-empty list on its last row. */
  lemma StaleCursorMove(i: int, direction: int, len: nat)
    requires 0 < len <= i && (direction == 1 || direction == -1)
    ensures ClampIndex(i + direction, len) == len - 1
  {
  }

  // ----- URL templates -----

  /** `Config.BUTTONS`: the label and URL template of each search button. */
  const Buttons: seq<(string, string)> := [
    ("SumRift", "https://lolalytics.com/lol/{q}/build/"),
    ("ARAM", "https://lolalytics.com/lol/{q}/aram/build/")
  ]

  const Placeholder: string := "{q}"

  /** `url.replace("{q}", token)`; `FillSinglePlaceholder` and `ButtonUrls` state what it produces. */
  function BuildUrl(template: string, token: string): string {
    Replace(template, Placeholder, token)
  }

  /** A template `pre + "{q}" + post` with no `{` outside the placeholder resolves to `pre + token + post`. */
  lemma FillSinglePlaceholder(pre: string, post: string, token: string)
    requires '{' !in pre && '{' !in post
    ensures BuildUrl(pre + Placeholder + post, token) == pre + token + post
  {
    var s := pre + (Placeholder + post);
    forall i | 0 <= i < |pre| ensures !OccursAt(s, Placeholder, i) {
      assert s[i] == pre[i] && pre[i] in pre;
      NotOccursAtOtherHead(s, Placeholder, i);
    }
    ReplaceSkipsPrefix(pre, Placeholder + post, Placeholder, token);
    ReplaceWithoutLead(post, Placeholder, token);
    assert pre + Placeholder + post == s;
    assert (Placeholder + post)[..|Placeholder|] == Placeholder;
    assert (Placeholder + post)[|Placeholder|..] == post;
  }

  /** The summoner's-rift page of the token "kaisa". */
  lemma KaisaSumRiftUrl()
    ensures BuildUrl(Buttons[0].1, "kaisa") == "https://lolalytics.com/lol/kaisa/build/"
  {
    ButtonUrls("kaisa");
  }

  /** Both buttons put the token in the champion's path segment of a lolalytics.com URL. */
  lemma ButtonUrls(token: string)
    ensures BuildUrl(Buttons[0].1, token) == "https://lolalytics.com/lol/" + token + "/build/"
    ensures BuildUrl(Buttons[1].1, token) == "https://lolalytics.com/lol/" + token + "/aram/build/"
  {
    var pre := "https://lolalytics.com/lol/";
    assert Buttons[0].1 == pre + Placeholder + "/build/";
    assert Buttons[1].1 == pre + Placeholder + "/aram/build/";
    FillSinglePlaceholder(pre, "/build/", token);
    FillSinglePlaceholder(pre, "/aram/build/", token);
  }
}
