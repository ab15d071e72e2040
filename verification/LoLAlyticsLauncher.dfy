/**
  * The LoLAlytics launcher's selector. Its cursor is the listbox selection:
  * an optional row index, reset to the first row whenever the list is
  * refilled, and the lookup token is the selected name merely lower-cased.
  */
module LoLAlyticsLauncher {
  import opened Wrappers
  import opened PyStr
  import opened Selector

  /** `_search`'s token: the entry lower-cased, punctuation and spaces kept. */
  function Token(name: string): (t: string)
    ensures |t| == |name|
    ensures forall i :: 0 <= i < |name| && !IsUpper(name[i]) ==> t[i] == name[i]
  {
    Lower(name)
  }

  lemma TokenExamples()
    ensures Token("Dr. Mundo") == "dr. mundo"
    ensures Token("Kai'Sa") == "kai'sa"
    ensures Token("Kaisa") == "kaisa"
  {
  }

  /** The summoner's-rift button for Kaisa opens her build page. */
  lemma KaisaBuildUrl()
    ensures BuildUrl(Buttons[0].1, Token("Kaisa")) == "https://lolalytics.com/lol/kaisa/build/"
  {
    TokenExamples();
    KaisaSumRiftUrl();
  }

  class ChampionSearchApp {
    /** `champion_list`: loaded once, never changed. */
    var championList: seq<string>
    /** `filtered_list`. */
    var filteredList: seq<string>
    /** The rows of the listbox. */
    var shown: seq<string>
    /** `listbox.curselection()`: at most one row is selected. */
    var selection: Option<nat>

    ghost predicate Valid()
      reads this
    {
      (shown == [] || shown == filteredList) &&
      (selection.Some? ==> selection.value < |shown|)
    }

    /** `__init__`: the filtered list is the full list, but the listbox starts empty, so nothing is selected. */
    constructor (src: ReadResult)
      ensures Valid()
      ensures championList == LoadList(src) && filteredList == championList
      ensures shown == [] && selection == None
    {
      championList := LoadList(src);
      filteredList := championList;
      shown := [];
      selection := None;
    }

    /** `_filter_list` on the entry's text: refilter, refill the listbox and select its first row. */
    method FilterList(entryText: string)
      requires Valid()
      modifies this
      ensures Valid()
      ensures championList == old(championList)
      ensures filteredList == FilterNames(championList, entryText)
      ensures shown == filteredList
      ensures selection == if filteredList == [] then None else Some(0)
    {
      filteredList := FilterNames(championList, entryText);
      UpdateListbox();
    }

    /** `_update_listbox`: clear the rows, insert every filtered name, select row 0 if there is one. */
    method UpdateListbox()
      modifies this`shown, this`selection
      ensures shown == filteredList
      ensures selection == if filteredList == [] then None else Some(0)
    {
      shown := [];
      var i := 0;
      while i < |filteredList|
        invariant 0 <= i <= |filteredList|
        invariant shown == filteredList[..i]
      {
        shown := shown + [filteredList[i]];
        i := i + 1;
      }
      selection := if filteredList != [] then Some(0) else None;
    }

    /**
      * `_move_selection`: from no selection the target is row 0 whatever the
      * direction, otherwise the selected row plus `direction`; the target is
      * clamped into the filtered list. The listbox selects it only if it is a
      * row of the listbox, which it always is once the listbox is filled.
      */
    method MoveSelection(direction: int)
      requires Valid()
      modifies this`selection
      ensures Valid()
      ensures var target := if old(selection).Some? then old(selection).value + direction else 0;
        selection == if shown == [] then None else Some(ClampIndex(target, |filteredList|))
    {
      var newIndex := if selection.Some? then selection.value + direction else 0;
      var clamped := ClampIndex(newIndex, |filteredList|);
      selection := None;
      if clamped < |shown| {
        selection := Some(clamped);
      }
    }

    /**
      * `_search` with one of the URL templates: with no selection nothing is
      * launched; otherwise the URL launched is the template with every `{q}`
      * replaced by the selected entry lower-cased.
      */
    method Search(url: string) returns (launched: Option<string>)
      requires Valid()
      ensures launched.Some? <==> selection.Some?
      ensures selection.Some? ==>
        selection.value < |filteredList| &&
        launched == Some(BuildUrl(url, Token(filteredList[selection.value])))
    {
      if selection.Some? {
        var champion := Lower(filteredList[selection.value]);
        launched := Some(Replace(url, "{q}", champion));
      } else {
        launched := None;
      }
    }
  }

  /**
    * `_filter_list` with "ka" over a file listing Ahri, Akali and Kaisa
    * leaves Akali and Kaisa in that order; `_move_selection(1)` selects
    * Kaisa, and `_search` with the summoner's-rift template opens its build
    * page.
    */
  method SearchScenario() returns (launched: Option<string>)
    ensures launched == Some("https://lolalytics.com/lol/kaisa/build/")
  {
    var names := ["Ahri", "Akali", "Kaisa"];
    ExampleLoad(names);
    var app := new ChampionSearchApp(Lines(FileLines(names)));
    var query := "ka";
    ExampleFilter(names, query);
    app.FilterList(query);
    app.MoveSelection(1);
    assert app.selection == Some(1) && app.filteredList[1] == "Kaisa";
    KaisaBuildUrl();
    launched := app.Search(Buttons[0].1);
  }

  /** Before the first `_filter_list` the listbox is empty: a move selects nothing and a search opens nothing. */
  method NothingSelectedScenario(src: ReadResult) returns (launched: Option<string>)
    ensures launched == None
  {
    var app := new ChampionSearchApp(src);
    app.MoveSelection(1);
    launched := app.Search(Buttons[0].1);
  }
}
