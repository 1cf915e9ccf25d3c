// tomviz's AdvancedFormatWidget: a free-form file-name regular expression
// with named capture groups and per-group substitutions. Matching is done by
// the regex engine, which is not part of this model: its captures are an
// input. The pattern rewrite for Python is RegexText.PythonRegex.

module AdvancedFormat {
  import opened RegexText

  /** The pattern the widget starts with: dm3 images whose names carry "<n|p><angle>degree". */
  const DefaultRegex: string := ".*_([n,p]{1}[\\d,\\.]+)degree.*\\.dm3"

  datatype CapGroup = CapGroup(name: string, value: string)
  datatype MatchInfo = MatchInfo(matched: bool, groups: seq<CapGroup>)

  /** QRegExp::cap(i): the i-th capture, or the empty string past the last one. */
  function Cap(captures: seq<string>, i: nat): string
  {
    if i < |captures| then captures[i] else ""
  }

  /** One substitution row: within `groupName`, text matching `regex` is replaced by `substitution`. */
  datatype Substitution = Substitution(groupName: string, regex: string, substitution: string)

  /** The substitutions of one group, in list order, each as a one-key object. */
  function ForGroup(subs: seq<Substitution>, group: string): seq<map<string, string>>
    decreases |subs|
  {
    if |subs| == 0 then []
    else
      var last := subs[|subs| - 1];
      ForGroup(subs[..|subs| - 1], group) + (if last.groupName == group then [map[last.regex := last.substitution]] else [])
  }

  function GroupsOf(subs: seq<Substitution>): set<string>
  {
    set k | 0 <= k < |subs| :: subs[k].groupName
  }

  /** Reference definition: one entry per group name, holding that group's substitutions in order. */
  function Collected(subs: seq<Substitution>): map<string, seq<map<string, string>>>
  {
    map g | g in GroupsOf(subs) :: ForGroup(subs, g)
  }

  lemma {:induction false} ForGroupMembers(subs: seq<Substitution>, group: string)
    ensures |ForGroup(subs, group)| > 0 <==> group in GroupsOf(subs)
    ensures |ForGroup(subs, group)| <= |subs|
    decreases |subs|
  {
    if |subs| > 0 {
      var init := subs[..|subs| - 1];
      ForGroupMembers(init, group);
      assert GroupsOf(subs) == GroupsOf(init) + {subs[|subs| - 1].groupName} by {
        forall g | g in GroupsOf(subs)
          ensures g in GroupsOf(init) + {subs[|subs| - 1].groupName}
        {
          var k :| 0 <= k < |subs| && subs[k].groupName == g;
          if k < |subs| - 1 {
            assert init[k] == subs[k];
          }
        }
        forall g | g in GroupsOf(init)
          ensures g in GroupsOf(subs)
        {
          var k :| 0 <= k < |init| && init[k].groupName == g;
          assert subs[k] == init[k];
        }
      }
    }
  }

  /** Every group that has a substitution gets an entry, and a group's entries keep the list's order. */
  lemma CollectedSpec(subs: seq<Substitution>, k: nat)
    requires k < |subs|
    ensures subs[k].groupName in Collected(subs)
    ensures Collected(subs).Keys == GroupsOf(subs)
    ensures forall g :: g in Collected(subs) ==> 0 < |Collected(subs)[g]| <= |subs|
  {
    forall g | g in Collected(subs)
      ensures 0 < |Collected(subs)[g]| <= |subs|
    {
      ForGroupMembers(subs, g);
    }
  }

  /** Listing a row again appends one more mapping to its group and adds no group. */
  lemma RepeatedRow(subs: seq<Substitution>, k: nat)
    requires k < |subs|
    ensures var g := subs[k].groupName;
      Collected(subs + [subs[k]]).Keys == Collected(subs).Keys
      && Collected(subs + [subs[k]])[g] == Collected(subs)[g] + [map[subs[k].regex := subs[k].substitution]]
  {
    var s := subs[k];
    var more := subs + [s];
    CollectStep(more);
    assert more[..|more| - 1] == subs;
    assert s.groupName in GroupsOf(subs);
  }

  class AdvancedFormatWidget {
    var fileNameRegex: string
    /** Whether the named-group editor is enabled: only for a non-empty pattern. */
    var groupsEnabled: bool

    constructor ()
      ensures fileNameRegex == DefaultRegex && groupsEnabled
    {
      fileNameRegex := DefaultRegex;
      groupsEnabled := true;
    }

    /** Editing the pattern replaces it and enables the groups editor exactly when it is not empty. */
    method OnPatternEdited(pattern: string)
      modifies this
      ensures fileNameRegex == pattern && groupsEnabled == (pattern != "")
    {
      groupsEnabled := pattern != "";
      fileNameRegex := pattern;
    }

    method GetRegex() returns (r: string)
      ensures r == fileNameRegex
    {
      r := fileNameRegex;
    }

    /** getPythonRegex: lazy ".*?" made greedy first, then every ".*" made lazy. */
    method GetPythonRegex() returns (r: string)
      ensures r == PythonRegex(fileNameRegex)
      ensures AllLazy(r) && PythonRegex(r) == r
    {
      var regex := fileNameRegex;
      regex := ReplaceAll(regex, ".*?", ".*");
      regex := ReplaceAll(regex, ".*", ".*?");
      PythonRegexSpec(fileNameRegex);
      r := regex;
    }
  }

  /**
   * matchFileName after the regex engine: without named groups the whole
   * match is reported as "Full match"; otherwise group i is named by the
   * i-th name and holds capture i + 1.
   */
  method MatchFileName(matched: bool, captures: seq<string>, namedGroups: seq<string>) returns (m: MatchInfo)
    ensures m.matched == matched
    ensures |namedGroups| == 0 ==> m.groups == [CapGroup("Full match", Cap(captures, 0))]
    ensures |namedGroups| > 0 ==> |m.groups| == |namedGroups|
    ensures |namedGroups| > 0 ==> forall i :: 0 <= i < |namedGroups| ==>
      m.groups[i].name == namedGroups[i] && m.groups[i].value == Cap(captures, i + 1)
  {
    var groups: seq<CapGroup> := [];
    if |namedGroups| == 0 {
      groups := groups + [CapGroup("Full match", Cap(captures, 0))];
    } else {
      for i := 0 to |namedGroups|
        invariant |groups| == i
        invariant forall j :: 0 <= j < i ==> groups[j] == CapGroup(namedGroups[j], Cap(captures, j + 1))
      {
        groups := groups + [CapGroup(namedGroups[i], Cap(captures, i + 1))];
      }
    }
    m := MatchInfo(matched, groups);
  }

  /** getRegexSubsitutions: each row is appended to its group's list, creating the list on first use. */
  method GetRegexSubstitutions(subs: seq<Substitution>) returns (result: map<string, seq<map<string, string>>>)
    ensures result == Collected(subs)
  {
    result := map[];
    for i := 0 to |subs|
      invariant result == Collected(subs[..i])
    {
      var sub := subs[i];
      var regexToSubs: seq<map<string, string>> := [];
      if sub.groupName in result {
        regexToSubs := result[sub.groupName];
      }
      var mapping := map[sub.regex := sub.substitution];
      regexToSubs := regexToSubs + [mapping];
      result := result[sub.groupName := regexToSubs];
      assert subs[..i + 1][..i] == subs[..i];
      CollectStep(subs[..i + 1]);
    }
    assert subs[..|subs|] == subs;
  }

  /** Appending a row extends its group's list by one mapping and leaves the other groups alone. */
  lemma CollectStep(subs: seq<Substitution>)
    requires |subs| > 0
    ensures var init, last := subs[..|subs| - 1], subs[|subs| - 1];
      Collected(subs) == Collected(init)[last.groupName :=
        (if last.groupName in Collected(init) then Collected(init)[last.groupName] else []) + [map[last.regex := last.substitution]]]
  {
    var init, last := subs[..|subs| - 1], subs[|subs| - 1];
    var m := map[last.regex := last.substitution];
    ForGroupMembers(init, last.groupName);
    assert GroupsOf(subs) == GroupsOf(init) + {last.groupName} by {
      forall g | g in GroupsOf(subs)
        ensures g in GroupsOf(init) + {last.groupName}
      {
        var k :| 0 <= k < |subs| && subs[k].groupName == g;
        if k < |subs| - 1 {
          assert init[k] == subs[k];
        }
      }
      forall g | g in GroupsOf(init)
        ensures g in GroupsOf(subs)
      {
        var k :| 0 <= k < |init| && init[k].groupName == g;
        assert subs[k] == init[k];
      }
    }
    var before := Collected(init);
    var after := before[last.groupName := (if last.groupName in before then before[last.groupName] else []) + [m]];
    assert Collected(subs).Keys == after.Keys;
    forall g | g in after
      ensures Collected(subs)[g] == after[g]
    {
      assert ForGroup(subs, g) == ForGroup(init, g) + (if last.groupName == g then [m] else []);
    }
  }
}
