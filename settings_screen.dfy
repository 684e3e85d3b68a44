/** The settings screen's state: the calendars selected for the dashboard
    (the primary ones at first, toggled one at a time and never emptied by a
    toggle), and the backend URL, saved trimmed and without a final slash,
    or reset to the emulator default. */
module SettingsScreen {
  import opened Wrappers
  import opened JsStrings

  /** DEFAULT_API_URL: the host machine as seen from the Android emulator. */
  const DEFAULT_API_URL := "http://10.0.2.2:3000"

  /** One entry of the calendar list. */
  datatype Calendar = Calendar(id: string, name: string, primary: bool, backgroundColor: Option<string>)

  predicate Distinct(s: seq<string>) {
    forall i, j :: 0 <= i < j < |s| ==> s[i] != s[j]
  }

  /** The ids of the primary calendars, in list order. */
  function InitialSelection(calendars: seq<Calendar>): (r: seq<string>)
    ensures |r| <= |calendars|
    ensures forall id :: id in r <==> exists c :: c in calendars && c.primary && c.id == id
    decreases |calendars|
  {
    if calendars == [] then []
    else
      var init := calendars[..|calendars| - 1];
      var last := calendars[|calendars| - 1];
      var rest := InitialSelection(init);
      assert forall c :: c in calendars <==> c in init || c == last;
      if last.primary then rest + [last.id] else rest
  }

  /** The selection keeps list order: it distributes over concatenation. */
  lemma {:induction false} InitialSelectionAppend(a: seq<Calendar>, b: seq<Calendar>)
    ensures InitialSelection(a + b) == InitialSelection(a) + InitialSelection(b)
    decreases |b|
  {
    if b == [] {
      assert a + b == a;
    } else {
      var init := b[..|b| - 1];
      assert (a + b)[..|a + b| - 1] == a + init;
      assert (a + b)[|a + b| - 1] == b[|b| - 1];
      InitialSelectionAppend(a, init);
    }
  }

  /** A single calendar is selected at first exactly when it is primary. */
  lemma InitialSelectionOne(c: Calendar)
    ensures InitialSelection([c]) == if c.primary then [c.id] else []
  {
    assert [c][..0] == [];
  }

  /** With distinct calendar ids the initial selection has no duplicate. */
  lemma {:induction false} InitialSelectionDistinct(calendars: seq<Calendar>)
    requires forall i, j :: 0 <= i < j < |calendars| ==> calendars[i].id != calendars[j].id
    ensures Distinct(InitialSelection(calendars))
    decreases |calendars|
  {
    if calendars != [] {
      var init := calendars[..|calendars| - 1];
      var last := calendars[|calendars| - 1];
      InitialSelectionDistinct(init);
      if last.primary {
        forall k | 0 <= k < |init| ensures init[k].id != last.id {
          assert init[k] == calendars[k];
        }
        assert last.id !in InitialSelection(init);
      }
    }
  }

  /** `prev.filter(x => x !== id)`, in order. */
  function Without(prev: seq<string>, id: string): (r: seq<string>)
    ensures |r| <= |prev|
    ensures forall x :: x in r <==> x in prev && x != id
    decreases |prev|
  {
    if prev == [] then []
    else
      var init := prev[..|prev| - 1];
      var last := prev[|prev| - 1];
      var rest := Without(init, id);
      assert forall x :: x in prev <==> x in init || x == last;
      if last != id then rest + [last] else rest
  }

  /** Removal keeps the order of the rest: it distributes over concatenation. */
  lemma {:induction false} WithoutAppend(a: seq<string>, b: seq<string>, id: string)
    ensures Without(a + b, id) == Without(a, id) + Without(b, id)
    decreases |b|
  {
    if b == [] {
      assert a + b == a;
    } else {
      var init := b[..|b| - 1];
      assert (a + b)[..|a + b| - 1] == a + init;
      assert (a + b)[|a + b| - 1] == b[|b| - 1];
      WithoutAppend(a, init, id);
    }
  }

  /** A single id is kept exactly when it is not the one removed. */
  lemma WithoutOne(x: string, id: string)
    ensures Without([x], id) == if x != id then [x] else []
  {
    assert [x][..0] == [];
  }

  /** Removing an id that is not there changes nothing. */
  lemma {:induction false} WithoutAbsent(prev: seq<string>, id: string)
    requires id !in prev
    ensures Without(prev, id) == prev
    decreases |prev|
  {
    if prev != [] {
      var init := prev[..|prev| - 1];
      WithoutAbsent(init, id);
      assert init + [prev[|prev| - 1]] == prev;
    }
  }

  /** Removing an id from a list without duplicates keeps it without duplicates. */
  lemma {:induction false} WithoutDistinct(prev: seq<string>, id: string)
    requires Distinct(prev)
    ensures Distinct(Without(prev, id))
    decreases |prev|
  {
    if prev != [] {
      var init := prev[..|prev| - 1];
      assert Distinct(init);
      WithoutDistinct(init, id);
      var last := prev[|prev| - 1];
      forall k | 0 <= k < |init| ensures init[k] != last {
        assert init[k] == prev[k];
      }
      assert last !in init;
    }
  }

  /** The updater of handleToggleCalendar. */
  function ToggleSelection(prev: seq<string>, id: string): (r: seq<string>)
    // an unselected id is appended at the end
    ensures id !in prev ==> r == prev + [id]
    // the only selected id stays selected
    ensures id in prev && |prev| == 1 ==> r == prev
    // otherwise a selected id is removed and the rest stay in order
    ensures id in prev && |prev| != 1 ==> r == Without(prev, id)
    ensures id in prev && |prev| != 1 ==> id !in r && forall x :: x in r <==> x in prev && x != id
  {
    if id in prev then
      if |prev| == 1 then prev else Without(prev, id)
    else prev + [id]
  }

  /** A toggle keeps the selection free of duplicates and never empties a
      non-empty selection. */
  lemma ToggleKeepsSelection(prev: seq<string>, id: string)
    requires Distinct(prev)
    ensures Distinct(ToggleSelection(prev, id))
    ensures prev != [] ==> ToggleSelection(prev, id) != []
  {
    if id in prev && |prev| != 1 {
      WithoutDistinct(prev, id);
      var other := if prev[0] != id then prev[0] else prev[1];
      assert other in Without(prev, id);
    }
  }

  /** Toggling an id on and off again restores a non-empty selection. */
  lemma ToggleTwice(prev: seq<string>, id: string)
    requires prev != [] && id !in prev
    ensures ToggleSelection(ToggleSelection(prev, id), id) == prev
  {
    var once := prev + [id];
    assert id in once;
    assert once[..|once| - 1] == prev;
    WithoutAbsent(prev, id);
  }

  /** The URL handleSaveBackendUrl saves: the input trimmed, with at most one
      final slash removed; nothing when the trimmed input is empty. */
  function NormalizeUrl(input: string): (r: Option<string>)
    ensures r.None? <==> Trim(input) == ""
    // a final slash goes, and only one
    ensures r.Some? ==> if EndsWithSlash(Trim(input)) then r.value + "/" == Trim(input) else r.value == Trim(input)
  {
    var trimmed := Trim(input);
    if trimmed == "" then None
    else if EndsWithSlash(trimmed) then
      var stripped := trimmed[..|trimmed| - 1];
      assert stripped + "/" == trimmed;
      Some(stripped)
    else Some(trimmed)
  }

  predicate EndsWithSlash(s: string) {
    s != [] && s[|s| - 1] == '/'
  }

  /** Only one slash goes: a URL ending in two keeps one. */
  lemma OneSlashRemoved(url: string)
    requires url != [] && !IsWhitespace(url[0])
    ensures NormalizeUrl(url + "//") == Some(url + "/")
  {
    var s := url + "//";
    assert !IsWhitespace(s[0]) && !IsWhitespace(s[|s| - 1]);
    TrimNoop(s);
    assert s[..|s| - 1] == url + "/";
  }

  /** The screen's state. */
  class SettingsState {
    var selectedCalendarIds: seq<string>
    var backendUrl: string
    var urlInputValue: string

    /** The screen opens with nothing selected and the configured URL in both places. */
    constructor (configuredUrl: string)
      ensures selectedCalendarIds == [] && backendUrl == configuredUrl && urlInputValue == configuredUrl
    {
      selectedCalendarIds := [];
      backendUrl := configuredUrl;
      urlInputValue := configuredUrl;
    }

    /** The calendar list arrived: the primary calendars become the selection. */
    method LoadCalendars(calendars: seq<Calendar>)
      modifies this
      ensures selectedCalendarIds == InitialSelection(calendars)
      ensures backendUrl == old(backendUrl) && urlInputValue == old(urlInputValue)
    {
      selectedCalendarIds := InitialSelection(calendars);
    }

    /** handleToggleCalendar. */
    method ToggleCalendar(calendarId: string)
      modifies this
      ensures selectedCalendarIds == ToggleSelection(old(selectedCalendarIds), calendarId)
      ensures backendUrl == old(backendUrl) && urlInputValue == old(urlInputValue)
    {
      selectedCalendarIds := ToggleSelection(selectedCalendarIds, calendarId);
    }

    /** The text field's onChangeText. */
    method EditUrl(text: string)
      modifies this
      ensures urlInputValue == text
      ensures selectedCalendarIds == old(selectedCalendarIds) && backendUrl == old(backendUrl)
    {
      urlInputValue := text;
    }

    /** handleSaveBackendUrl; `stored` tells whether persisting the URL
        succeeded. Both URLs change only when there is a URL and it was stored. */
    method SaveBackendUrl(stored: bool) returns (saved: Option<string>)
      modifies this
      ensures saved == (if stored then NormalizeUrl(old(urlInputValue)) else None)
      ensures saved.Some? ==> backendUrl == saved.value && urlInputValue == saved.value
      ensures saved.None? ==> backendUrl == old(backendUrl) && urlInputValue == old(urlInputValue)
      ensures selectedCalendarIds == old(selectedCalendarIds)
    {
      var normalized := NormalizeUrl(urlInputValue);
      if normalized.None? || !stored {
        return None;
      }
      backendUrl := normalized.value;
      urlInputValue := normalized.value;
      saved := normalized;
    }

    /** handleResetBackendUrl; `stored` tells whether persisting the default succeeded. */
    method ResetBackendUrl(stored: bool)
      modifies this
      ensures stored ==> backendUrl == DEFAULT_API_URL && urlInputValue == DEFAULT_API_URL
      ensures !stored ==> backendUrl == old(backendUrl) && urlInputValue == old(urlInputValue)
      ensures selectedCalendarIds == old(selectedCalendarIds)
    {
      if stored {
        backendUrl := DEFAULT_API_URL;
        urlInputValue := DEFAULT_API_URL;
      }
    }
  }
}
