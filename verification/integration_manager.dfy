/** The integration list: connect/disconnect by name, and the status filter
    combined with a case-insensitive name search. */
module IntegrationManager {
  import opened Text
  import opened Sequences

  datatype Status = Connected | Disconnected

  datatype Integration = Integration(name: string, description: string, logo: string, status: Status)

  /** The filter drop-down: every entry, or connected ones only. */
  datatype Filter = All | ConnectedOnly

  function Flip(st: Status): Status {
    if st == Connected then Disconnected else Connected
  }

  /** `handleToggleConnection`: flip the status of every entry called `name`. */
  function Toggle(list: seq<Integration>, name: string): (r: seq<Integration>)
    ensures |r| == |list|
    ensures forall i :: 0 <= i < |list| && list[i].name == name ==>
      r[i] == list[i].(status := Flip(list[i].status))
    ensures forall i :: 0 <= i < |list| && list[i].name != name ==> r[i] == list[i]
  {
    seq(|list|, i requires 0 <= i < |list| =>
      if list[i].name == name then list[i].(status := Flip(list[i].status)) else list[i])
  }

  /** Toggling the same name twice restores the list. */
  lemma ToggleTwice(list: seq<Integration>, name: string)
    ensures Toggle(Toggle(list, name), name) == list
  {
    var r := Toggle(Toggle(list, name), name);
    forall i | 0 <= i < |list| ensures r[i] == list[i] {
      if list[i].name == name {
        assert Flip(Flip(list[i].status)) == list[i].status;
      }
    }
  }

  /** Toggling a name no entry carries changes nothing. */
  lemma ToggleAbsent(list: seq<Integration>, name: string)
    requires forall i :: 0 <= i < |list| ==> list[i].name != name
    ensures Toggle(list, name) == list
  {
    assert forall i :: 0 <= i < |list| ==> Toggle(list, name)[i] == list[i];
  }

  /** Exactly the entries called `name` change status, each to the other one. */
  lemma ToggleFlipsExactlyNamed(list: seq<Integration>, name: string, i: nat)
    requires i < |list|
    ensures Toggle(list, name)[i].status != list[i].status <==> list[i].name == name
    ensures Toggle(list, name)[i].(status := list[i].status) == list[i]
  {
  }

  /** The predicate of `filteredIntegrations`: status filter and a
      case-insensitive (ASCII) substring match of the search term on the name. */
  predicate Matches(it: Integration, filter: Filter, term: string) {
    (filter == All || it.status == Connected) && Includes(Lower(it.name), Lower(term))
  }

  /** `filteredIntegrations`: the matching entries, in list order. */
  function Filtered(list: seq<Integration>, filter: Filter, term: string): (r: seq<Integration>)
    ensures |r| <= |list|
    ensures forall x :: x in r <==> x in list && Matches(x, filter, term)
    ensures forall x :: multiset(r)[x] == if Matches(x, filter, term) then multiset(list)[x] else 0
    decreases |list|
  {
    if list == [] then []
    else
      var rest := Filtered(list[1..], filter, term);
      assert list == [list[0]] + list[1..];
      if Matches(list[0], filter, term) then [list[0]] + rest else rest
  }

  /** The filtered list keeps the order of the full list. */
  lemma {:induction false} FilteredIsSubsequence(list: seq<Integration>, filter: Filter, term: string)
    ensures IsSubsequence(Filtered(list, filter, term), list)
    decreases |list|
  {
    if list != [] {
      FilteredIsSubsequence(list[1..], filter, term);
      var rest := Filtered(list[1..], filter, term);
      if Matches(list[0], filter, term) {
        assert Filtered(list, filter, term) == [list[0]] + rest;
        assert ([list[0]] + rest)[1..] == rest;
      } else {
        assert Filtered(list, filter, term) == rest;
        if rest != [] {
          assert IsSubsequence(rest, list[1..]);
        }
      }
    }
  }

  /** Every string contains the empty one, whatever its case. */
  lemma EmptyTermMatchesAnyName(name: string)
    ensures Includes(Lower(name), Lower(""))
  {
  }

  /** With filter 'all' and an empty search term the whole list is shown;
      with 'connected' and an empty term, exactly the connected entries. */
  lemma {:induction false} EmptySearch(list: seq<Integration>)
    ensures Filtered(list, All, "") == list
    ensures forall x :: x in Filtered(list, ConnectedOnly, "") <==> x in list && x.status == Connected
    decreases |list|
  {
    if list != [] {
      EmptySearch(list[1..]);
      EmptyTermMatchesAnyName(list[0].name);
      assert [list[0]] + list[1..] == list;
    }
  }

  const Initial: seq<Integration> := [
    Integration("Google Drive", "Automatically process files from your Google Drive folders.",
      "https://upload.wikimedia.org/wikipedia/commons/d/da/Google_Drive_logo.png", Disconnected),
    Integration("OneDrive", "Sync with your OneDrive for Business for seamless automation.",
      "https://upload.wikimedia.org/wikipedia/commons/thumb/e/e3/Microsoft_Office_OneDrive_%282019%E2%80%93present%29.svg/220px-Microsoft_Office_OneDrive_%282019%E2%80%93present%29.svg.png", Disconnected),
    Integration("Dropbox", "Connect your Dropbox account to automate file conversions.",
      "https://upload.wikimedia.org/wikipedia/commons/thumb/7/78/Dropbox_Icon.svg/1024px-Dropbox_Icon.svg.png", Connected),
    Integration("Slack", "Send notifications and reports directly to your Slack channels.",
      "https://upload.wikimedia.org/wikipedia/commons/thumb/d/d5/Slack_icon_2019.svg/2048px-Slack_icon_2019.svg.png", Disconnected),
    Integration("Zapier", "Connect DINESHKUMAR.AI to thousands of other apps with Zapier.",
      "https://cdn.zapier.com/zapier/images/dev-docs/zapier-logo.png", Connected),
    Integration("Microsoft Teams", "Share analysis and reports with your team members.",
      "https://upload.wikimedia.org/wikipedia/commons/thumb/c/c9/Microsoft_Office_Teams_%282018%E2%80%93present%29.svg/220px-Microsoft_Office_Teams_%282018%E2%80%93present%29.svg.png", Disconnected)
  ]

  /** The initial list: six entries with distinct names, of which exactly
      Dropbox and Zapier are connected. */
  lemma InitialList()
    ensures |Initial| == 6
    ensures forall i, j :: 0 <= i < j < |Initial| ==> Initial[i].name != Initial[j].name
    ensures forall i :: 0 <= i < |Initial| ==>
      (Initial[i].status == Connected <==> Initial[i].name == "Dropbox" || Initial[i].name == "Zapier")
  {
  }
}
