/**
  * Bob's launcher's selector. Its cursor is the integer field
  * `current_index`: moves clamp it, but refiltering leaves it alone, so after
  * a narrowing filter it can point past the end of the filtered list. Its
  * lookup token keeps only the ASCII letters of the name, lower-cased.
  */
module BobLauncher {
  import opened PyStr
  import opened Selector

  /** `re.sub(r"[^a-zA-Z]", "", name)`: the ASCII letters of `name`, in order. */
  function LettersOnly(name: string): (r: string)
    ensures |r| <= |name|
    ensures forall i :: 0 <= i < |r| ==> IsAsciiLetter(r[i])
  {
    Select(name, IsAsciiLetter)
  }

  /** `_search`'s token: the letters of the name, lower-cased. */
  function Token(name: string): (t: string)
    ensures |t| <= |name|
    ensures forall i :: 0 <= i < |t| ==> IsAsciiLower(t[i])
  {
    Lower(LettersOnly(name))
  }

  /**
    * The token is exactly the letters of the name, in order and lower-cased:
    * its k-th character is the lower-cased k-th letter of the name, and a
    * position of the name contributes iff it holds a letter.
    */
  lemma TokenExact(name: string)
    ensures var t, idx := Token(name), SelectIndices(name, IsAsciiLetter);
      |idx| == |t| && StrictlyIncreasing(idx) &&
      (forall k :: 0 <= k < |idx| ==> idx[k] < |name| && t[k] == LowerChar(name[idx[k]])) &&
      (forall i :: 0 <= i < |name| ==> (IsAsciiLetter(name[i]) <==> i in idx))
  {
    SelectIsStable(name, IsAsciiLetter);
  }

  /** Deriving the token of a token changes nothing. */
  lemma TokenIdempotent(name: string)
    ensures Token(Token(name)) == Token(name)
  {
    var t := Token(name);
    assert forall i :: 0 <= i < |t| ==> IsAsciiLetter(t[i]);
    SelectAll(t, IsAsciiLetter);
    LowerWithoutUpper(t);
  }

  /** A character outside `[a-zA-Z]` contributes nothing to the letters of a name. */
  lemma LettersSkipNonLetter(a: string, c: char, b: string)
    requires !IsAsciiLetter(c)
    ensures LettersOnly(a + [c] + b) == LettersOnly(a) + LettersOnly(b)
  {
    SelectSplit(a + [c], b, IsAsciiLetter);
    SelectSplit(a, [c], IsAsciiLetter);
    assert Select([c], IsAsciiLetter) == [];
  }

  /** A name made only of letters is its own letters. */
  lemma LettersOfWord(w: string)
    requires forall i :: 0 <= i < |w| ==> IsAsciiLetter(w[i])
    ensures LettersOnly(w) == w
  {
    SelectAll(w, IsAsciiLetter);
  }

  lemma KaiSaToken(s: string)
    requires s == "Kai'Sa"
    ensures Token(s) == "kaisa"
  {
    assert s == "Kai" + ['\''] + "Sa";
    LettersSkipNonLetter("Kai", '\'', "Sa");
    LettersOfWord("Kai");
    LettersOfWord("Sa");
    KaiSaLower("KaiSa");
  }

  lemma KaiSaLower(s: string)
    requires s == "KaiSa"
    ensures Lower(s) == "kaisa"
  {
  }

  lemma MundoLetters(s: string, dr: string, mundo: string)
    requires s == "Dr. Mundo" && dr == "Dr" && mundo == "Mundo"
    ensures LettersOnly(s) == dr + mundo
  {
    var rest := [' '] + mundo;
    assert s == dr + ['.'] + rest;
    LettersSkipNonLetter(dr, '.', rest);
    assert rest == [] + [' '] + mundo;
    LettersSkipNonLetter([], ' ', mundo);
    LettersOfWord(dr);
    LettersOfWord(mundo);
  }

  lemma MundoToken(s: string)
    requires s == "Dr. Mundo"
    ensures Token(s) == "drmundo"
  {
    MundoLetters(s, "Dr", "Mundo");
    MundoLower(LettersOnly(s));
  }

  lemma MundoLower(s: string)
    requires s == "DrMundo"
    ensures Lower(s) == "drmundo"
  {
  }

  lemma WordToken(s: string, t: string)
    requires (s == "Ahri" && t == "ahri") || (s == "Kaisa" && t == "kaisa")
    ensures Token(s) == t
  {
    LettersOfWord(s);
  }

  /** `"Kai'Sa"` and `"Dr. Mundo"` lose their punctuation and spaces; plain names are only lower-cased. */
  lemma TokenExamples()
    ensures Token("Kai'Sa") == "kaisa"
    ensures Token("Dr. Mundo") == "drmundo"
    ensures Token("Ahri") == "ahri"
    ensures Token("Kaisa") == "kaisa"
  {
    KaiSaToken("Kai'Sa");
    MundoToken("Dr. Mundo");
    WordToken("Ahri", "ahri");
    WordToken("Kaisa", "kaisa");
  }

  /** What `_search` does: nothing on an empty list, open a URL, or fail on a stale index. */
  datatype SearchOutcome =
    | NoSearch
    | Launch(url: string)
    | IndexError

  class ChampionSearchApp {
    /** `champion_list`: loaded once, never changed. */
    var championList: seq<string>
    /** `filtered_list`. */
    var filteredList: seq<string>
    /** The rows of the listbox. */
    var shown: seq<string>
    /** `current_index`: never negative, but not kept below `|filteredList|`. */
    var currentIndex: nat

    /**
      * Once filled, the listbox rows mirror `filtered_list` (BobLauncher.py:91-94).
      * Nothing else is invariant: `current_index` is deliberately not tied to
      * the list, and no method needs this predicate to do its work.
      */
    ghost predicate Valid()
      reads this
    {
      shown == [] || shown == filteredList
    }

    /** `__init__`: the filtered list is the full list and the cursor is on its first entry. */
    constructor (src: ReadResult)
      ensures Valid()
      ensures championList == LoadList(src) && filteredList == championList
      ensures currentIndex == 0 && shown == []
    {
      championList := LoadList(src);
      filteredList := championList;
      currentIndex := 0;
      shown := [];
    }

    /** `_filter_list` on the entry's text: refilter and refill the listbox; the cursor is not touched. */
    method FilterList(entryText: string)
      requires Valid()
      modifies this
      ensures Valid()
      ensures championList == old(championList) && currentIndex == old(currentIndex)
      ensures filteredList == FilterNames(championList, entryText)
      ensures shown == filteredList
    {
      filteredList := FilterNames(championList, entryText);
      UpdateListbox();
    }

    /** `_update_listbox`: clear the rows and insert every filtered name. */
    method UpdateListbox()
      modifies this`shown
      ensures shown == filteredList
    {
      shown := [];
      var i := 0;
      while i < |filteredList|
        invariant 0 <= i <= |filteredList|
        invariant shown == filteredList[..i]
      {
        shown := shown + [filteredList[i]];
        i := i + 1;
      }
    }

    /**
      * `_move_selection`: nothing happens on an empty list; otherwise the
      * cursor moves by `direction` and is clamped into the list, so it is in
      * range afterwards even if it was stale before.
      */
    method MoveSelection(direction: int)
      modifies this`currentIndex
      ensures filteredList == [] ==> currentIndex == old(currentIndex)
      ensures filteredList != [] ==>
        currentIndex == ClampIndex(old(currentIndex) + direction, |filteredList|) &&
        currentIndex < |filteredList|
    {
      if filteredList == [] {
        return;
      }
      currentIndex := ClampIndex(currentIndex + direction, |filteredList|);
    }

    /**
      * `_search` with one of the URL templates: nothing on an empty list;
      * the template with every `{q}` replaced by the token of the entry under
      * the cursor; an `IndexError` when the cursor is past the end.
      */
    method Search(url: string) returns (outcome: SearchOutcome)
      ensures filteredList == [] ==> outcome == NoSearch
      ensures filteredList != [] && currentIndex >= |filteredList| ==> outcome == IndexError
      ensures filteredList != [] && currentIndex < |filteredList| ==>
        outcome == Launch(BuildUrl(url, Token(filteredList[currentIndex])))
    {
      if filteredList == [] {
        return NoSearch;
      }
      if currentIndex >= |filteredList| {
        return IndexError;
      }
      var champion := Lower(LettersOnly(filteredList[currentIndex]));
      outcome := Launch(Replace(url, "{q}", champion));
    }
  }

  /** The summoner's-rift button for Kaisa opens her build page. */
  lemma KaisaBuildUrl(name: string)
    requires name == "Kaisa"
    ensures BuildUrl(Buttons[0].1, Token(name)) == "https://lolalytics.com/lol/kaisa/build/"
  {
    WordToken(name, "kaisa");
    KaisaSumRiftUrl();
  }

  /** Typing "ka" over a file listing Ahri, Akali and Kaisa leaves Akali and Kaisa, with the cursor still on row 0. */
  method KaisaFiltered() returns (app: ChampionSearchApp)
    ensures fresh(app) && app.Valid()
    ensures app.filteredList == ["Akali", "Kaisa"] && app.currentIndex == 0
  {
    var names := ["Ahri", "Akali", "Kaisa"];
    ExampleLoad(names);
    app := new ChampionSearchApp(Lines(FileLines(names)));
    var query := "ka";
    ExampleFilter(names, query);
    app.FilterList(query);
  }

  /** One move down from there puts the cursor on Kaisa. */
  method KaisaSelected() returns (app: ChampionSearchApp)
    ensures app.Valid()
    ensures app.currentIndex < |app.filteredList| && app.filteredList[app.currentIndex] == "Kaisa"
  {
    app := KaisaFiltered();
    app.MoveSelection(1);
    assert app.currentIndex == ClampIndex(1, 2) == 1;
  }

  /** Enter then opens Kaisa's build page. */
  method SearchScenario() returns (outcome: SearchOutcome)
    ensures outcome == Launch("https://lolalytics.com/lol/kaisa/build/")
  {
    var app := KaisaSelected();
    KaisaBuildUrl(app.filteredList[app.currentIndex]);
    outcome := app.Search(Buttons[0].1);
  }

  /** Before any typing, two moves down over Ahri, Akali and Kaisa put the cursor on Kaisa, row 2. */
  method TwoMovesDown() returns (app: ChampionSearchApp)
    ensures fresh(app) && app.Valid()
    ensures app.championList == ["Ahri", "Akali", "Kaisa"] && app.currentIndex == 2
  {
    var names := ["Ahri", "Akali", "Kaisa"];
    ExampleLoad(names);
    app := new ChampionSearchApp(Lines(FileLines(names)));
    app.MoveSelection(1);
    assert app.currentIndex == 1;
    app.MoveSelection(1);
  }

  /** The stale cursor: after two moves down, typing "ah" leaves only Ahri but keeps the cursor at 2. */
  method NarrowedPastCursor() returns (app: ChampionSearchApp)
    ensures app.Valid()
    ensures app.filteredList != [] && app.currentIndex >= |app.filteredList|
  {
    app := TwoMovesDown();
    var query := "ah";
    ExampleNarrowingFilter(app.championList, query);
    app.FilterList(query);
  }

  /** Enter then indexes past the end of the filtered list. */
  method StaleIndexScenario() returns (outcome: SearchOutcome)
    ensures outcome == IndexError
  {
    var app := NarrowedPastCursor();
    outcome := app.Search(Buttons[0].1);
  }
}
