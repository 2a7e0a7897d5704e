/**
 * The header's user-name editor and location search (Header.tsx). The page's
 * state is a class whose handlers change it; browser storage for the name is
 * the `stored` field, and the locations handed to the weather context are
 * recorded in `requested`, in order.
 */
module Header {
  import opened Common

  const DefaultName: string := "Your Name"

  /** Everything the handlers read and write. */
  datatype View = View(userName: string, tempName: string, isEditingName: bool, stored: Option<string>,
                       searchLocation: string, isSearching: bool, requested: seq<string>)

  /** `savedName || 'Your Name'`: an absent or empty saved name gives the default. */
  function InitialName(saved: Option<string>): (r: string)
    ensures saved.Some? && saved.value != "" ==> r == saved.value
    ensures saved.None? || saved.value == "" ==> r == DefaultName
    ensures r != ""
  {
    if saved.Some? && saved.value != "" then saved.value else DefaultName
  }

  /** The effect run whenever the name changes: store it unless it is empty or the default. */
  function StoreEffect(v: View): (r: View)
    ensures v.userName != "" && v.userName != DefaultName ==> r == v.(stored := Some(v.userName))
    ensures v.userName == "" || v.userName == DefaultName ==> r == v
  {
    if v.userName != "" && v.userName != DefaultName then v.(stored := Some(v.userName)) else v
  }

  function Initial(saved: Option<string>): View {
    StoreEffect(View(InitialName(saved), "", false, saved, "", false, []))
  }

  /** `handleNameEdit`: start editing from the current name. */
  function EditStep(v: View): View {
    v.(isEditingName := true, tempName := v.userName)
  }

  /**
   * `handleNameSave`: a non-blank draft becomes the trimmed name and is stored
   * at once (the default name too); a blank one changes no name. Editing ends
   * either way.
   */
  function SaveStep(v: View): (r: View)
    ensures !r.isEditingName && r.tempName == v.tempName
    ensures IsBlank(v.tempName) ==> r == v.(isEditingName := false)
    ensures !IsBlank(v.tempName) ==> r.userName == Trim(v.tempName) && r.stored == Some(Trim(v.tempName))
    ensures r.searchLocation == v.searchLocation && r.isSearching == v.isSearching && r.requested == v.requested
  {
    if Trim(v.tempName) != [] then
      var newName := Trim(v.tempName);
      StoreEffect(v.(userName := newName, stored := Some(newName))).(isEditingName := false)
    else v.(isEditingName := false)
  }

  lemma SaveStepCases(v: View)
    ensures var t := Trim(v.tempName);
      SaveStep(v) == if t != [] then v.(userName := t, stored := Some(t), isEditingName := false)
                     else v.(isEditingName := false)
  {
  }

  /** `handleNameCancel`: drop the draft and stop editing. */
  function CancelStep(v: View): View {
    v.(tempName := v.userName, isEditingName := false)
  }

  /** `handleNameKeyPress`. */
  function KeyStep(v: View, key: string): View {
    if key == "Enter" then SaveStep(v) else if key == "Escape" then CancelStep(v) else v
  }

  /** `handleLocationSearch`: a blank search is ignored; otherwise the text, as typed, is looked up. */
  function SearchStep(v: View): (r: View)
    ensures IsBlank(v.searchLocation) ==> r == v
    ensures !IsBlank(v.searchLocation) ==>
      r == v.(requested := v.requested + [v.searchLocation], searchLocation := "", isSearching := false)
  {
    if IsBlank(v.searchLocation) then v
    else v.(requested := v.requested + [v.searchLocation], searchLocation := "", isSearching := false)
  }

  /**
   * The stored name always brings the shown name back: reloading the page
   * with what is in storage shows the same name.
   */
  predicate Persisted(v: View) {
    InitialName(v.stored) == v.userName
  }

  lemma InitialPersisted(saved: Option<string>)
    ensures Persisted(Initial(saved)) && Initial(saved).userName != ""
  {
  }

  /** Saving keeps the name non-empty and in storage. */
  lemma SavePersists(v: View)
    requires Persisted(v) && v.userName != ""
    ensures Persisted(SaveStep(v)) && SaveStep(v).userName != ""
  {
  }

  /** Every handler keeps the name non-empty and in storage. */
  lemma StepsPersist(v: View, key: string, typed: string)
    requires Persisted(v) && v.userName != ""
    ensures Persisted(EditStep(v)) && Persisted(CancelStep(v)) && Persisted(SearchStep(v))
    ensures Persisted(v.(tempName := typed))
    ensures Persisted(KeyStep(v, key)) && KeyStep(v, key).userName != ""
  {
    if key == "Enter" {
      SavePersists(v);
    }
  }

  /** Enter saves, Escape cancels, every other key leaves the state alone. */
  lemma KeyMeaning(v: View, key: string)
    ensures key == "Enter" ==> KeyStep(v, key) == SaveStep(v)
    ensures key == "Escape" ==> KeyStep(v, key) == CancelStep(v)
    ensures key != "Enter" && key != "Escape" ==> KeyStep(v, key) == v
  {
  }

  /** Editing and then cancelling, whatever was typed, leaves the name and its storage unchanged. */
  lemma EditTypeCancel(v: View, typed: string)
    ensures var r := CancelStep(EditStep(v).(tempName := typed));
      r.userName == v.userName && r.stored == v.stored && !r.isEditingName && r.tempName == v.userName
  {
  }

  /** Saving a typed name shows and stores it trimmed; saving a blank one keeps the old name. */
  lemma EditTypeSave(v: View, typed: string)
    ensures var r := SaveStep(EditStep(v).(tempName := typed));
      && !r.isEditingName
      && (!IsBlank(typed) ==> r.userName == Trim(typed) && r.stored == Some(Trim(typed)))
      && (IsBlank(typed) ==> r.userName == v.userName && r.stored == v.stored)
  {
  }

  class HeaderState {
    var userName: string
    var tempName: string
    var isEditingName: bool
    var stored: Option<string>
    var searchLocation: string
    var isSearching: bool
    var requested: seq<string>

    function State(): View
      reads this
    {
      View(userName, tempName, isEditingName, stored, searchLocation, isSearching, requested)
    }

    /** The header as mounted with `saved` in storage, after its first effect. */
    constructor (saved: Option<string>)
      ensures State() == Initial(saved)
    {
      userName := if saved.Some? && saved.value != "" then saved.value else DefaultName;
      tempName, isEditingName, stored := "", false, saved;
      searchLocation, isSearching, requested := "", false, [];
      new;
      ApplyStoreEffect();
    }

    method ApplyStoreEffect()
      modifies this
      ensures State() == StoreEffect(old(State()))
    {
      if userName != "" && userName != DefaultName {
        stored := Some(userName);
      }
    }

    method HandleNameEdit()
      modifies this
      ensures State() == EditStep(old(State()))
    {
      isEditingName := true;
      tempName := userName;
    }

    /** The name input's `onChange`. */
    method SetTempName(typed: string)
      modifies this
      ensures State() == old(State()).(tempName := typed)
    {
      tempName := typed;
    }

    method HandleNameSave()
      modifies this
      ensures State() == SaveStep(old(State()))
    {
      SaveStepCases(State());
      var newName := Trim(tempName);
      if newName != [] {
        userName := newName;
        stored := Some(newName);
      }
      isEditingName := false;
    }

    method HandleNameCancel()
      modifies this
      ensures State() == CancelStep(old(State()))
    {
      tempName := userName;
      isEditingName := false;
    }

    method HandleNameKeyPress(key: string)
      modifies this
      ensures State() == KeyStep(old(State()), key)
    {
      if key == "Enter" {
        HandleNameSave();
      } else if key == "Escape" {
        HandleNameCancel();
      }
    }

    /** The search button: show or hide the search form. */
    method ToggleSearch()
      modifies this
      ensures State() == old(State()).(isSearching := !old(isSearching))
    {
      isSearching := !isSearching;
    }

    /** The search input's `onChange`. */
    method SetSearchLocation(typed: string)
      modifies this
      ensures State() == old(State()).(searchLocation := typed)
    {
      searchLocation := typed;
    }

    method HandleLocationSearch()
      modifies this
      ensures State() == SearchStep(old(State()))
    {
      if IsBlank(searchLocation) {
        return;
      }
      requested := requested + [searchLocation];
      searchLocation := "";
      isSearching := false;
    }
  }
}
