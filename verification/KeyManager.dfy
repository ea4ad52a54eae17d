/** `ManageMultiKeys` and the append branch of `UpdateChannel`, editing a stored channel in
    place. */
module KeyManager {
  import opened Text
  import opened Options
  import opened Lists
  import opened Names
  import opened MultiKey

  // ----- Appending keys

  /** The keys of an append request: its non-blank lines, trimmed. */
  function InputKeys(input: string): (r: seq<string>)
    ensures forall x :: x in r ==> x != "" && '\n' !in x
  {
    var lines := TrimAll(Split(input, '\n'));
    assert forall i :: 0 <= i < |lines| ==> Split(input, '\n')[i] in Split(input, '\n');
    Filter(lines, NonBlank)
  }

  /** The input keys that are new, each once, in the order given. */
  function FreshKeys(keys: seq<string>, input: string): (r: seq<string>)
    ensures forall x :: x in r <==> x in InputKeys(input) && x !in TrimAll(keys)
  {
    Filter(Uniq(InputKeys(input)), NotIn(TrimAll(keys)))
  }

  /** An empty key column is replaced by the request's text; otherwise the new keys follow. */
  function Append(info: Info, input: string): Info {
    if info.key == "" then Update(info, input)
    else Update(info, Join(Keys(info) + FreshKeys(Keys(info), input), '\n'))
  }

  lemma FreshAreDistinct(keys: seq<string>, input: string)
    ensures NoDup(FreshKeys(keys, input))
    ensures forall x :: x in FreshKeys(keys, input) ==> x != "" && TrimSpace(x) == x && x !in TrimAll(keys)
    ensures forall x :: x in InputKeys(input) ==> x in TrimAll(keys) || x in FreshKeys(keys, input)
  {
    UniqNoDup(InputKeys(input));
    FilterNoDup(Uniq(InputKeys(input)), NotIn(TrimAll(keys)));
    forall x | x in FreshKeys(keys, input) ensures x != "" && TrimSpace(x) == x {
      InputTrimmed(input, x);
    }
  }

  lemma AppendedKeysRead(keys: seq<string>, added: seq<string>)
    requires Free(keys, '\n') && Free(added, '\n') && SolidEnds(keys)
    requires forall x :: x in added ==> x != ""
    ensures Parse(Join(keys + added, '\n'), '\n') == keys + added
  {
    var all := keys + added;
    ParseJoin(all, '\n');
    if added != [] {
      assert added[0] in added && added[|added| - 1] in added;
      assert all[|all| - 1] == added[|added| - 1];
      assert keys == [] ==> all[0] == added[0];
    } else {
      assert all == keys;
    }
  }

  /** Appending keeps the existing keys as a prefix, unless the column held only line breaks. An
      empty column takes over the lines of the text as they are. */
  lemma AppendKeepsKeys(info: Info, input: string)
    ensures var added := FreshKeys(Keys(info), input);
      Keys(Append(info, input)) ==
        if info.key == "" then Parse(input, '\n')
        else if Keys(info) == [""] && added != [] then added
        else Keys(info) + added
  {
    if info.key != "" {
      AppendToSome(info, input);
    }
  }

  lemma AppendToSome(info: Info, input: string)
    requires info.key != ""
    ensures var added := FreshKeys(Keys(info), input);
      Keys(Append(info, input)) == (if Keys(info) == [""] && added != [] then added else Keys(info) + added)
  {
    var keys, added := Keys(info), FreshKeys(Keys(info), input);
    ParseEnds(info.key, '\n');
    if keys != [""] {
      AppendedKeysRead(keys, added);
      assert Join(keys + added, '\n') != "" by {
        assert (keys + added)[0] != "";
      }
    } else if added == [] {
      assert keys + added == [""];
    } else {
      BlankFirst(added);
    }
  }

  lemma BlankFirst(added: seq<string>)
    requires added != [] && Free(added, '\n') && forall x :: x in added ==> x != ""
    ensures var text := Join([""] + added, '\n'); text != "" && text[0] == '\n' && Parse(text, '\n') == added
  {
    var all := [""] + added;
    assert all[1..] == added && added[0] in added && added[|added| - 1] in added;
    assert Strip(all) == Strip(added) == added;
    ParseJoinReads(all, '\n');
  }

  lemma AppendTidy(info: Info, input: string)
    requires Tidy(info)
    ensures var r := Append(info, input);
      |Keys(r)| >= |Keys(info)| && Tidy(r) && r == info.(key := r.key, size := r.size)
  {
    var r := Append(info, input);
    AppendKeepsKeys(info, input);
    assert info.key == "" || FreshKeys(Keys(info), input) != [] || |Keys(r)| == |Keys(info)|;
    BelowAll(info.status, |Keys(r)|);
  }

  /** On tidy columns the new keys start out enabled; every old entry keeps its index, unless a
      column of line breaks only gives its one blank key's index to the first new key. */
  lemma AppendShows(info: Info, input: string)
    requires Tidy(info)
    ensures var r := Append(info, input);
      && Tidy(r)
      && (View(info) <= View(r) <==> Keys(info) != [""] || FreshKeys(Keys(info), input) == [])
      && forall i :: |View(info)| <= i < |View(r)| ==> View(r)[i].status == None
  {
    var r, added := Append(info, input), FreshKeys(Keys(info), input);
    AppendTidy(info, input);
    AppendKeepsKeys(info, input);
    forall i | |View(info)| <= i < |View(r)| ensures View(r)[i].status == None {
      assert View(r)[i] == EntryAt(r, i);
    }
    if info.key == "" {
      assert View(info) == [];
    } else if Keys(info) == [""] && added != [] {
      assert added[0] in added;
      assert View(r)[0] == EntryAt(r, 0) && View(info)[0] == EntryAt(info, 0);
    } else {
      SameEntries(info, r);
    }
  }

  lemma SameEntries(info: Info, r: Info)
    requires Keys(info) <= Keys(r) && r == info.(key := r.key, size := r.size)
    ensures View(info) <= View(r)
  {
    forall i | 0 <= i < |View(info)| ensures View(r)[i] == View(info)[i] {
      assert View(r)[i] == EntryAt(r, i) && View(info)[i] == EntryAt(info, i);
    }
  }

  predicate OnlyBreaks(text: string) {
    forall c :: c in text ==> c == '\n'
  }

  /** Repeating the same append changes nothing, unless the first one filled a column of line breaks
      only, or stored a text with line breaks at its ends, which the second one trims. */
  lemma AppendTwice(info: Info, input: string)
    ensures Append(Append(info, input), input) == Append(info, input) <==>
      if info.key == "" then Trimmed(input, Is('\n')) || OnlyBreaks(input)
      else Keys(info) != [""] || FreshKeys(Keys(info), input) == []
  {
    if info.key == "" {
      StoreTwice(info, input);
    } else if Keys(info) != [""] {
      AppendAgain(info, input);
    } else if FreshKeys(Keys(info), input) != [] {
      AppendAgainFilled(info, input);
    } else {
      AppendNothing(info, input);
    }
  }

  /** Repeating an append to an empty column. */
  lemma StoreTwice(info: Info, input: string)
    requires info.key == ""
    ensures Append(Append(info, input), input) == Append(info, input) <==>
      Trimmed(input, Is('\n')) || OnlyBreaks(input)
  {
    var r, text := Append(info, input), Trim(input, Is('\n'));
    if input != "" {
      assert r == Update(info, input) && r.key == input;
      NothingFreshStored(input);
      AppendsNothing(r, input);
      JoinSplit(text, '\n');
      assert Append(r, input) == Update(r, text);
      assert text == "" <==> OnlyBreaks(input) by {
        assert forall c :: Is('\n')(c) == (c == '\n');
      }
      UpdateTwice(info, input);
    }
  }

  /** What does not see line breaks at the ends does not see trimming. */
  lemma {:induction false} TrimUnseen<T>(input: string, f: string -> T)
    requires forall text :: f(['\n'] + text) == f(text)
    requires forall text :: f(text + ['\n']) == f(text)
    ensures f(Trim(input, Is('\n'))) == f(input)
    decreases |input|
  {
    var n := |input|;
    if n > 0 && input[0] == '\n' {
      TrimUnseen(input[1..], f);
      assert input == ['\n'] + input[1..];
    } else if n > 0 && input[n - 1] == '\n' {
      TrimUnseen(input[..n - 1], f);
      assert input == input[..n - 1] + ['\n'];
    }
  }

  lemma BreakInFront(text: string)
    ensures InputKeys(['\n'] + text) == InputKeys(text)
  {
    var lines := Split(text, '\n');
    assert (['\n'] + text)[1..] == text;
    assert [] + [""] + lines == [""] + lines && [] + lines == lines;
    BlankLine([], lines);
  }

  lemma BreakBehind(text: string)
    ensures InputKeys(text + ['\n']) == InputKeys(text)
  {
    var lines := Split(text, '\n');
    SplitBack(text, '\n');
    assert lines + [""] + [] == lines + [""] && lines + [] == lines;
    BlankLine(lines, []);
  }

  /** Line breaks at the ends of the text give no keys. */
  lemma InputKeysTrim(input: string)
    ensures InputKeys(Trim(input, Is('\n'))) == InputKeys(input)
  {
    forall text ensures InputKeys(['\n'] + text) == InputKeys(text) {
      BreakInFront(text);
    }
    forall text ensures InputKeys(text + ['\n']) == InputKeys(text) {
      BreakBehind(text);
    }
    TrimUnseen(input, InputKeys);
  }

  lemma BlankLine(before: seq<string>, after: seq<string>)
    ensures Filter(TrimAll(before + [""] + after), NonBlank) == Filter(TrimAll(before + after), NonBlank)
  {
    TrimAllConcat(before + [""], after);
    TrimAllConcat(before, [""]);
    TrimAllConcat(before, after);
    assert TrimAll([""]) == [""];
    FilterBlank(TrimAll(before), TrimAll(after));
  }

  lemma TrimAllConcat(xs: seq<string>, ys: seq<string>)
    ensures TrimAll(xs + ys) == TrimAll(xs) + TrimAll(ys)
  {
  }

  lemma FilterBlank(before: seq<string>, after: seq<string>)
    ensures Filter(before + [""] + after, NonBlank) == Filter(before + after, NonBlank)
  {
    FilterConcat(before + [""], after, NonBlank);
    FilterConcat(before, [""], NonBlank);
    FilterConcat(before, after, NonBlank);
    FilterNone([""], NonBlank);
  }

  lemma FilledKeys(input: string)
    ensures InputKeys(input) == Filter(TrimAll(Parse(input, '\n')), NonBlank)
  {
    InputKeysTrim(input);
    assert Split("", '\n') == [""] && TrimAll([""]) == [""] && TrimAll([]) == [];
    FilterNone([""], NonBlank);
  }

  /** The keys of a stored text are held already. */
  lemma NothingFreshStored(input: string)
    ensures FreshKeys(Parse(input, '\n'), input) == []
  {
    FilledKeys(input);
    FilterNone(Uniq(InputKeys(input)), NotIn(TrimAll(Parse(input, '\n'))));
  }

  /** Lines that are trimmed, not blank and not repeated. */
  predicate CleanLines(keys: seq<string>) {
    NoDup(keys) && forall x :: x in keys ==> x != "" && TrimSpace(x) == x
  }

  lemma CleanAreFresh(keys: seq<string>, input: string)
    requires CleanLines(keys) && InputKeys(input) == Filter(TrimAll(keys), NonBlank)
    ensures FreshKeys([], input) == keys
  {
    assert TrimAll(keys) == keys;
    FilterAll(keys, NonBlank);
    UniqNoDup(keys);
    FilterAll(keys, NotIn(TrimAll([])));
  }

  /** An append to an empty column stores the keys that it would add to a column holding none of
      them, exactly when the text's lines are clean between its outer line breaks. */
  lemma EmptyColumnTakes(info: Info, input: string)
    requires info.key == ""
    ensures Keys(Append(info, input)) == FreshKeys([], input) <==> CleanLines(Parse(input, '\n'))
  {
    var keys := Parse(input, '\n');
    AppendKeepsKeys(info, input);
    FreshAreDistinct([], input);
    if CleanLines(keys) {
      FilledKeys(input);
      CleanAreFresh(keys, input);
    }
  }

  /** The same text gives one key in a filled column and two equal ones in an empty column. */
  lemma RepeatedKeyIsStored()
    ensures var empty := Info("", 0, map[], map[], map[]);
      Keys(Append(empty, "a\na")) == ["a", "a"] && FreshKeys([], "a\na") != ["a", "a"]
  {
    var empty, keys := Info("", 0, map[], map[], map[]), ["a", "a"];
    assert keys[1..] == ["a"] && Join(keys, '\n') == "a" + ['\n'] + "a" == "a\na";
    ParseJoin(keys, '\n');
    AppendKeepsKeys(empty, "a\na");
    FreshAreDistinct([], "a\na");
    assert !NoDup(keys) by {
      assert keys[0] == keys[1];
    }
  }

  lemma UpdateTwice(info: Info, text: string)
    ensures var r := Update(info, text); Update(r, r.key) == r
  {
  }

  /** What an append with nothing new writes. */
  lemma AppendsNothing(r: Info, input: string)
    requires r.key != "" && FreshKeys(Keys(r), input) == []
    ensures Append(r, input) == Update(r, Join(Keys(r), '\n'))
  {
    assert Keys(r) + [] == Keys(r);
  }

  lemma AppendAgain(info: Info, input: string)
    requires info.key != "" && Keys(info) != [""]
    ensures Append(Append(info, input), input) == Append(info, input)
  {
    var r := Append(info, input);
    var keys, added := Keys(info), FreshKeys(Keys(info), input);
    var text := Join(keys + added, '\n');
    AppendKeepsKeys(info, input);
    ParseEnds(info.key, '\n');
    assert (keys + added)[0] != "" && text != "" && r == Update(info, text);
    NothingFresh(keys, added, input);
    AppendsNothing(r, input);
    UpdateTwice(info, text);
  }

  lemma AppendAgainFilled(info: Info, input: string)
    requires info.key != "" && Keys(info) == [""] && FreshKeys([""], input) != []
    ensures Append(Append(info, input), input).key != Append(info, input).key
  {
    var r, added := Append(info, input), FreshKeys([""], input);
    AppendKeepsKeys(info, input);
    BlankFirst(added);
    assert r.key[0] == '\n' && Keys(r) == added;
    FreshAgain(added, input);
    NothingFresh([], added, input);
    assert [] + added == added;
    AppendsNothing(r, input);
    SolidText(added);
  }

  lemma SolidText(added: seq<string>)
    requires added != [] && Free(added, '\n') && forall x :: x in added ==> x != ""
    ensures Join(added, '\n') != "" && Join(added, '\n')[0] != '\n'
  {
    assert added[0] in added && added[0][0] in added[0];
  }

  lemma AppendNothing(info: Info, input: string)
    requires info.key != "" && Keys(info) == [""] && FreshKeys([""], input) == []
    ensures Append(Append(info, input), input) == Append(info, input)
  {
    assert [""] + [] == [""];
  }

  lemma FreshAgain(added: seq<string>, input: string)
    requires added == FreshKeys([""], input)
    ensures added == FreshKeys([], input)
  {
    assert TrimAll([""]) == [""] && TrimAll([]) == [];
    FilterExt(Uniq(InputKeys(input)), NotIn([""]), NotIn([]));
  }

  lemma NothingFresh(keys: seq<string>, added: seq<string>, input: string)
    requires added == FreshKeys(keys, input)
    ensures FreshKeys(keys + added, input) == []
  {
    var all := keys + added;
    forall x | x in Uniq(InputKeys(input)) ensures x in TrimAll(all) {
      InputTrimmed(input, x);
      if x in TrimAll(keys) {
        var i :| 0 <= i < |keys| && TrimAll(keys)[i] == x;
        assert TrimAll(all)[i] == x;
      } else {
        var i :| 0 <= i < |added| && added[i] == x;
        assert TrimAll(all)[|keys| + i] == x;
      }
    }
    FilterNone(Uniq(InputKeys(input)), NotIn(TrimAll(all)));
  }

  lemma InputTrimmed(input: string, x: string)
    requires x in InputKeys(input)
    ensures TrimSpace(x) == x
  {
    var lines := TrimAll(Split(input, '\n'));
    var i :| 0 <= i < |lines| && lines[i] == x;
  }

  // ----- Runs of actions

  datatype Action =
    | Disable(index: Option<int>)
    | Enable(index: Option<int>)
    | EnableEvery
    | DisableEvery
    | Delete(index: Option<int>)
    | DeleteDisabled
    | AppendInput(input: string)

  function Act(info: Info, a: Action): Info {
    match a
    case Disable(i) => MultiKey.DisableKey(info, i).info
    case Enable(i) => MultiKey.EnableKey(info, i).info
    case EnableEvery => EnableAll(info).info
    case DisableEvery => DisableAll(info).info
    case Delete(i) => MultiKey.DeleteKey(info, i).info
    case DeleteDisabled => MultiKey.DeleteDisabledKeys(info).info
    case AppendInput(input) => Append(info, input)
  }

  function Run(info: Info, actions: seq<Action>): Info {
    if actions == [] then info else Act(Run(info, actions[..|actions| - 1]), actions[|actions| - 1])
  }

  /** Tidy columns without a blank key. */
  predicate Sound(info: Info) {
    Tidy(info) && NoBlanks(Keys(info))
  }

  lemma EditsKeepSound(info: Info, index: Option<int>)
    requires Sound(info)
    ensures Sound(MultiKey.DisableKey(info, index).info) && Sound(MultiKey.EnableKey(info, index).info)
    ensures Sound(EnableAll(info).info) && Sound(DisableAll(info).info)
  {
    EditsKeepTidy(info, index);
  }

  lemma DeleteKeepsSound(info: Info, index: Option<int>)
    requires Sound(info)
    ensures Sound(MultiKey.DeleteKey(info, index).info)
  {
    var r := MultiKey.DeleteKey(info, index);
    if r.ok {
      DeleteKeyShows(info, index.value);
      DeleteOne(info, index.value);
    }
  }

  lemma DeleteDisabledKeepsSound(info: Info)
    requires Sound(info)
    ensures Sound(MultiKey.DeleteDisabledKeys(info).info)
  {
    var r := MultiKey.DeleteDisabledKeys(info);
    if r.ok {
      if Alive(info) == [] {
        DeleteDisabledWithoutSurvivor(info);
      } else {
        AliveSolid(info);
        AliveIsPicked(info);
        DeleteDisabledShows(info);
        SurvivorsSolid(info, r.info);
      }
    }
  }

  lemma SurvivorsSolid(info: Info, r: Info)
    requires NoBlanks(Keys(info)) && View(r) == Alive(info) && Alive(info) != []
    ensures NoBlanks(Keys(r))
  {
    forall i | 0 <= i < |Keys(r)| ensures Keys(r)[i] != "" {
      assert View(r)[i] == EntryAt(r, i) && View(r)[i] in Alive(info);
      var j :| 0 <= j < |View(info)| && View(info)[j] == View(r)[i];
      assert View(info)[j] == EntryAt(info, j);
    }
  }

  lemma AppendKeepsSound(info: Info, input: string)
    requires Sound(info) && (info.key == "" ==> NoBlanks(Parse(input, '\n')))
    ensures Sound(Append(info, input))
  {
    AppendTidy(info, input);
    AppendKeepsKeys(info, input);
    NoBlanksAppended(Keys(info), FreshKeys(Keys(info), input));
  }

  lemma NoBlanksAppended(keys: seq<string>, added: seq<string>)
    requires NoBlanks(keys) && forall x :: x in added ==> x != ""
    ensures NoBlanks(keys + added)
  {
    forall i | 0 <= i < |keys + added| ensures (keys + added)[i] != "" {
      if i >= |keys| {
        assert added[i - |keys|] in added;
      }
    }
  }

  lemma EditActKeepsSound(info: Info, a: Action)
    requires Sound(info) && (a.Disable? || a.Enable? || a.EnableEvery? || a.DisableEvery?)
    ensures Sound(Act(info, a))
  {
    match a {
      case Disable(i) => EditsKeepSound(info, i);
      case Enable(i) => EditsKeepSound(info, i);
      case _ => EditsKeepSound(info, None);
    }
  }

  lemma ActKeepsSound(info: Info, a: Action)
    requires Sound(info) && (info.key == "" && a.AppendInput? ==> NoBlanks(Parse(a.input, '\n')))
    ensures Sound(Act(info, a))
  {
    match a {
      case Delete(i) => DeleteKeepsSound(info, i);
      case DeleteDisabled => DeleteDisabledKeepsSound(info);
      case AppendInput(input) => AppendKeepsSound(info, input);
      case _ => EditActKeepsSound(info, a);
    }
  }

  function AppendedText(a: Action): string {
    if a.AppendInput? then a.input else ""
  }

  /** The first text that is appended and not empty. */
  function FirstText(actions: seq<Action>): string {
    if actions == [] then ""
    else
      var before := FirstText(actions[..|actions| - 1]);
      if before != "" then before else AppendedText(actions[|actions| - 1])
  }

  /** A filled column is never emptied again, and only a text fills an empty one. */
  lemma ActFills(info: Info, a: Action)
    ensures Act(info, a).key == "" <==> info.key == "" && AppendedText(a) == ""
  {
  }

  lemma {:induction false} RunFills(info: Info, actions: seq<Action>)
    ensures Run(info, actions).key == "" <==> info.key == "" && FirstText(actions) == ""
  {
    if actions != [] {
      RunFills(info, actions[..|actions| - 1]);
      ActFills(Run(info, actions[..|actions| - 1]), actions[|actions| - 1]);
    }
  }

  /** Whatever the sequence of actions, the size counts the keys, statuses are disabled ones of
      existing keys, and times and reasons belong to disabled keys; an empty column must be filled
      with a text without blank lines between its outer line breaks. */
  lemma {:induction false} RunsKeepSound(info: Info, actions: seq<Action>)
    requires Sound(info) && (info.key == "" ==> NoBlanks(Parse(FirstText(actions), '\n')))
    ensures Sound(Run(info, actions))
  {
    if actions != [] {
      var before, a := actions[..|actions| - 1], actions[|actions| - 1];
      RunFills(info, before);
      RunsKeepSound(info, before);
      ActKeepsSound(Run(info, before), a);
    }
  }

  /** The deletes that leave a time or a reason behind: one recorded for another key would lie past
      the keys read back. */
  ghost predicate LeavesBehind(info: Info, a: Action) {
    match a
    case Delete(index) =>
      MultiKey.DeleteKey(info, index).ok && index.value < |Keys(info)| && !DeleteFits(info, index.value)
    case DeleteDisabled =>
      MultiKey.DeleteDisabledKeys(info).ok && !DeleteDisabledFits(info)
    case _ => false
  }

  lemma ActKeepsTidyExactly(info: Info, a: Action)
    requires Tidy(info)
    ensures Tidy(Act(info, a)) <==> !LeavesBehind(info, a)
  {
    match a {
      case Disable(i) => EditsKeepTidy(info, i);
      case Enable(i) => EditsKeepTidy(info, i);
      case EnableEvery => EditsKeepTidy(info, None);
      case DisableEvery => EditsKeepTidy(info, None);
      case Delete(i) => DeleteActTidyExactly(info, i);
      case DeleteDisabled => DeleteDisabledActTidyExactly(info);
      case AppendInput(input) => AppendTidy(info, input);
    }
  }

  lemma DeleteActTidyExactly(info: Info, index: Option<int>)
    requires Tidy(info)
    ensures Tidy(MultiKey.DeleteKey(info, index).info) <==> !LeavesBehind(info, Delete(index))
  {
    if MultiKey.DeleteKey(info, index).ok {
      DeleteTidyExactly(info, index.value);
    }
  }

  lemma DeleteDisabledActTidyExactly(info: Info)
    requires Tidy(info)
    ensures Tidy(MultiKey.DeleteDisabledKeys(info).info) <==> !LeavesBehind(info, DeleteDisabled)
  {
    if MultiKey.DeleteDisabledKeys(info).ok {
      DeleteDisabledTidyExactly(info);
    }
  }

  lemma RunStep(info: Info, actions: seq<Action>, n: nat)
    requires n < |actions|
    ensures Run(info, actions[..n + 1]) == Act(Run(info, actions[..n]), actions[n])
  {
    assert actions[..n + 1][..n] == actions[..n];
  }

  ghost predicate TidyAfter(info: Info, actions: seq<Action>, n: nat)
    requires n <= |actions|
  {
    Tidy(Run(info, actions[..n]))
  }

  ghost predicate LeavesAt(info: Info, actions: seq<Action>, n: nat)
    requires n < |actions|
  {
    LeavesBehind(Run(info, actions[..n]), actions[n])
  }

  lemma TidyStep(info: Info, actions: seq<Action>, n: nat)
    requires n < |actions| && TidyAfter(info, actions, n)
    ensures TidyAfter(info, actions, n + 1) <==> !LeavesAt(info, actions, n)
  {
    RunStep(info, actions, n);
    ActKeepsTidyExactly(Run(info, actions[..n]), actions[n]);
  }

  lemma {:induction false} StaysTidy(info: Info, actions: seq<Action>, n: nat)
    requires Tidy(info) && n <= |actions|
    requires forall m: nat :: m < n ==> !LeavesAt(info, actions, m)
    ensures TidyAfter(info, actions, n)
  {
    if n > 0 {
      StaysTidy(info, actions, n - 1);
      TidyStep(info, actions, n - 1);
    }
  }

  /** Blank keys or not, the columns are tidy throughout a run exactly when no delete in it leaves
      a time or a reason behind. */
  lemma RunsKeepTidyExactly(info: Info, actions: seq<Action>)
    requires Tidy(info)
    ensures (forall n: nat :: n <= |actions| ==> TidyAfter(info, actions, n)) <==>
      forall n: nat :: n < |actions| ==> !LeavesAt(info, actions, n)
  {
    if forall n: nat :: n <= |actions| ==> TidyAfter(info, actions, n) {
      forall n: nat | n < |actions| ensures !LeavesAt(info, actions, n) {
        TidyStep(info, actions, n);
      }
    }
    if forall n: nat :: n < |actions| ==> !LeavesAt(info, actions, n) {
      forall n: nat | n <= |actions| ensures TidyAfter(info, actions, n) {
        StaysTidy(info, actions, n);
      }
    }
  }

  lemma ActKeepsCounted(info: Info, a: Action)
    requires Counted(info)
    ensures Counted(Act(info, a))
  {
    match a {
      case Delete(i) => DeletesKeepCounted(info, i);
      case DeleteDisabled => DeletesKeepCounted(info, None);
      case AppendInput(input) => AppendKeepsCounted(info, input);
      case _ => EditActKeepsCounted(info, a);
    }
  }

  lemma EditActKeepsCounted(info: Info, a: Action)
    requires Counted(info) && (a.Disable? || a.Enable? || a.EnableEvery? || a.DisableEvery?)
    ensures Counted(Act(info, a))
  {
    match a {
      case Disable(i) => EditsKeepCounted(info, i);
      case Enable(i) => EditsKeepCounted(info, i);
      case _ => AllEditsKeepCounted(info);
    }
  }

  lemma EditsKeepCounted(info: Info, index: Option<int>)
    requires Counted(info)
    ensures Counted(MultiKey.DisableKey(info, index).info) && Counted(MultiKey.EnableKey(info, index).info)
  {
  }

  lemma AllEditsKeepCounted(info: Info)
    requires Counted(info)
    ensures Counted(EnableAll(info).info) && Counted(DisableAll(info).info)
  {
  }

  lemma DeletesKeepCounted(info: Info, index: Option<int>)
    requires Counted(info)
    ensures Counted(MultiKey.DeleteKey(info, index).info)
    ensures Counted(MultiKey.DeleteDisabledKeys(info).info)
  {
  }

  lemma AppendKeepsCounted(info: Info, input: string)
    requires Counted(info)
    ensures Counted(Append(info, input))
  {
  }

  /** Blank keys or not, the size counts the keys and statuses are disabled ones of existing keys. */
  lemma {:induction false} RunsKeepCounted(info: Info, actions: seq<Action>)
    requires Counted(info)
    ensures Counted(Run(info, actions))
  {
    if actions != [] {
      RunsKeepCounted(info, actions[..|actions| - 1]);
      ActKeepsCounted(Run(info, actions[..|actions| - 1]), actions[|actions| - 1]);
    }
  }

  lemma FirstDeleted(info: Info)
    requires info == Info("a\n\nb", 3, map[2 := AUTO_DISABLED], map[2 := 7], map[])
    ensures Tidy(info) && MultiKey.DeleteKey(info, Some(0)).ok && Strip(Cut(Keys(info), 0)) == ["b"]
  {
    BlankInTheMiddle();
    assert Cut(["a", "", "b"], 0) == ["", "b"] && ["", "b"][1..] == ["b"];
    DeleteKeyShows(info, 0);
  }

  /** Deleting the first of "a", "", "b" leaves "b" alone, and its time out of range. */
  lemma BlankKeyLosesStatus()
    ensures var info := Info("a\n\nb", 3, map[2 := AUTO_DISABLED], map[2 := 7], map[]);
      Tidy(info) && !Tidy(MultiKey.DeleteKey(info, Some(0)).info)
  {
    var info := Info("a\n\nb", 3, map[2 := AUTO_DISABLED], map[2 := 7], map[]);
    FirstDeleted(info);
    DeleteTidyExactly(info, 0);
    assert 2 in info.time;
  }

  // ----- Listing key statuses page by page

  datatype KeyStatus = KeyStatus(index: int, status: int, disabledTime: int, reason: string)

  datatype StatusPage = StatusPage(
    keys: seq<KeyStatus>,
    total: int,
    page: int,
    pageSize: int,
    totalPages: int,
    enabledCount: int,
    manualDisabledCount: int,
    autoDisabledCount: int)

  /** The status line of one key; times and reasons are shown for disabled keys only. */
  function StatusLine(info: Info, i: int): KeyStatus {
    var s := StatusOf(info, i);
    KeyStatus(i, s,
      if s != ENABLED && i in info.time then info.time[i] else 0,
      if s != ENABLED && i in info.reason then info.reason[i] else "")
  }

  /** On tidy columns a line shows the key's entry: no status is shown as 1, no time as 0, no reason as
      empty. Times and reasons left over for an enabled key are never shown. */
  lemma LineShowsEntry(info: Info, i: nat)
    requires i < |Keys(info)|
    ensures var line, e := StatusLine(info, i), EntryAt(info, i);
      && line.index == i
      && line.status == (if e.status.Some? then e.status.value else 1)
      && (line.status == 1 ==> line.disabledTime == 0 && line.reason == "")
      && (Tidy(info) ==>
            && line.disabledTime == (if e.time.Some? then e.time.value else 0)
            && line.reason == (if e.reason.Some? then e.reason.value else ""))
      && (line.status != 1 && e.time.Some? ==> line.disabledTime == e.time.value)
      && (line.status != 1 && e.reason.Some? ==> line.reason == e.reason.value)
  {
  }

  function StatusLines(info: Info, n: nat): (r: seq<KeyStatus>)
    ensures |r| == n
    ensures forall i :: 0 <= i < n ==> r[i] == StatusLine(info, i)
  {
    seq(n, i => StatusLine(info, i))
  }

  function HasStatus(wanted: Option<int>): KeyStatus -> bool {
    (s: KeyStatus) => wanted.None? || s.status == wanted.value
  }

  function Filtered(info: Info, wanted: Option<int>): seq<KeyStatus> {
    Filter(StatusLines(info, |Keys(info)|), HasStatus(wanted))
  }

  function Count(lines: seq<KeyStatus>, status: int): (n: nat)
    ensures n <= |lines|
  {
    if lines == [] then 0
    else Count(lines[..|lines| - 1], status) + if lines[|lines| - 1].status == status then 1 else 0
  }

  function TotalPages(total: nat, pageSize: int): int
    requires pageSize > 0
  {
    if total == 0 then 1 else (total + pageSize - 1) / pageSize
  }

  /** The slice of a list that page `page`, counted from 1, shows. */
  function PageSlice<T>(xs: seq<T>, page: int, pageSize: int): seq<T>
    requires pageSize > 0 && page >= 1
  {
    SliceFrom(xs, (page - 1) * pageSize, pageSize)
  }

  function SliceFrom<T>(xs: seq<T>, start: nat, count: nat): seq<T> {
    if start >= |xs| then [] else xs[start..if start + count < |xs| then start + count else |xs|]
  }

  function UpTo<T>(xs: seq<T>, end: nat): seq<T> {
    if end < |xs| then xs[..end] else xs
  }

  lemma SliceFollows<T>(xs: seq<T>, start: nat, count: nat)
    ensures UpTo(xs, start) + SliceFrom(xs, start, count) == UpTo(xs, start + count)
  {
  }

  /** Pages 1 to `pages`, put together. */
  function Joined<T>(page: int -> seq<T>, pages: nat): seq<T> {
    if pages == 0 then [] else Joined(page, pages - 1) + page(pages)
  }

  lemma {:induction false} JoinedAlike<T>(f: int -> seq<T>, g: int -> seq<T>, pages: nat)
    requires forall page :: 1 <= page <= pages ==> f(page) == g(page)
    ensures Joined(f, pages) == Joined(g, pages)
  {
    if pages > 0 {
      JoinedAlike(f, g, pages - 1);
    }
  }

  function SlicesOf<T>(xs: seq<T>, pageSize: int): int -> seq<T>
    requires pageSize > 0
  {
    page => if page >= 1 then PageSlice(xs, page, pageSize) else []
  }

  function FirstPages<T>(xs: seq<T>, pages: nat, pageSize: int): seq<T>
    requires pageSize > 0
  {
    Joined(SlicesOf(xs, pageSize), pages)
  }

  lemma {:induction false} FirstPagesArePrefix<T>(xs: seq<T>, pages: nat, pageSize: int)
    requires pageSize > 0
    ensures FirstPages(xs, pages, pageSize) == UpTo(xs, pages * pageSize)
  {
    if pages > 0 {
      var start := (pages - 1) * pageSize;
      FirstPagesArePrefix(xs, pages - 1, pageSize);
      assert pages * pageSize == start + pageSize;
      SliceFollows(xs, start, pageSize);
    }
  }

  lemma PagesCover(total: nat, pageSize: int)
    requires pageSize > 0
    ensures TotalPages(total, pageSize) >= 1
    ensures (TotalPages(total, pageSize) - 1) * pageSize < total || total == 0
    ensures total <= TotalPages(total, pageSize) * pageSize
  {
    if total > 0 {
      var q := (total + pageSize - 1) / pageSize;
      AtLeastOnce(total + pageSize - 1, pageSize);
      assert total + pageSize - 1 == q * pageSize + (total + pageSize - 1) % pageSize;
      assert (q - 1) * pageSize == q * pageSize - pageSize;
    }
  }

  lemma AtLeastOnce(a: int, b: int)
    requires a >= b > 0
    ensures a / b >= 1
  {
  }

  lemma TimesMonotone(a: nat, b: nat, c: nat)
    requires a <= b
    ensures a * c <= b * c
  {
    assert (b - a) * c >= 0;
  }

  lemma PageNotEmpty<T>(xs: seq<T>, page: int, pageSize: int)
    requires pageSize > 0 && 1 <= page <= TotalPages(|xs|, pageSize) && xs != []
    ensures PageSlice(xs, page, pageSize) != []
  {
    PagesCover(|xs|, pageSize);
    TimesMonotone(page - 1, TotalPages(|xs|, pageSize) - 1, pageSize);
  }

  /** Pages 1 to the last one, put together, are the list; and no page among them is empty
      unless the list is. */
  lemma PagesPartition<T>(xs: seq<T>, pageSize: int)
    requires pageSize > 0
    ensures FirstPages(xs, TotalPages(|xs|, pageSize), pageSize) == xs
    ensures forall page :: 1 <= page <= TotalPages(|xs|, pageSize) && xs != [] ==> PageSlice(xs, page, pageSize) != []
  {
    var pages := TotalPages(|xs|, pageSize);
    PagesCover(|xs|, pageSize);
    FirstPagesArePrefix(xs, pages, pageSize);
    forall page | 1 <= page <= pages && xs != [] ensures PageSlice(xs, page, pageSize) != [] {
      PageNotEmpty(xs, page, pageSize);
    }
  }

  /** Every key is counted under exactly one of the three statuses. */
  lemma {:induction false} CountsAddUp(lines: seq<KeyStatus>)
    requires forall i :: 0 <= i < |lines| ==> lines[i].status in {ENABLED, MANUALLY_DISABLED, AUTO_DISABLED}
    ensures Count(lines, ENABLED) + Count(lines, MANUALLY_DISABLED) + Count(lines, AUTO_DISABLED) == |lines|
  {
    if lines != [] {
      CountsAddUp(lines[..|lines| - 1]);
    }
  }

  lemma {:induction false} CountIsFilter(lines: seq<KeyStatus>, status: int)
    ensures Count(lines, status) == |Filter(lines, HasStatus(Some(status)))|
  {
    if lines != [] {
      CountIsFilter(lines[..|lines| - 1], status);
    }
  }

  /** What `get_key_status` answers: the requested page, clamped into range, of the filtered
      list, and counts over all keys whatever the filter. */
  function StatusAnswer(info: Info, page: int, pageSize: int, wanted: Option<int>): StatusPage {
    var lines := StatusLines(info, |Keys(info)|);
    var size := if pageSize <= 0 then 50 else pageSize;
    var list := Filter(lines, HasStatus(wanted));
    var pages := TotalPages(|list|, size);
    var at := if page <= 0 then 1 else if page > pages then pages else page;
    PagesCover(|list|, size);
    StatusPage(PageSlice(list, at, size), |list|, at, size, pages,
               Count(lines, ENABLED), Count(lines, MANUALLY_DISABLED), Count(lines, AUTO_DISABLED))
  }

  /** The keys of the answers for pages 1 to `pages`, put together. */
  function AnsweredKeys(info: Info, pages: nat, pageSize: int, wanted: Option<int>): seq<KeyStatus> {
    Joined(AnswersOf(info, pageSize, wanted), pages)
  }

  function AnswersOf(info: Info, pageSize: int, wanted: Option<int>): int -> seq<KeyStatus> {
    page => StatusAnswer(info, page, pageSize, wanted).keys
  }

  lemma AnswerInRange(info: Info, page: int, pageSize: int, wanted: Option<int>)
    requires 1 <= page <= TotalPages(|Filtered(info, wanted)|, if pageSize <= 0 then 50 else pageSize)
    ensures var size := if pageSize <= 0 then 50 else pageSize;
      StatusAnswer(info, page, pageSize, wanted).keys == PageSlice(Filtered(info, wanted), page, size)
  {
  }

  lemma AnsweredAreFirst(info: Info, pages: nat, pageSize: int, wanted: Option<int>)
    requires pages <= TotalPages(|Filtered(info, wanted)|, if pageSize <= 0 then 50 else pageSize)
    ensures var size := if pageSize <= 0 then 50 else pageSize;
      AnsweredKeys(info, pages, pageSize, wanted) == FirstPages(Filtered(info, wanted), pages, size)
  {
    var size := if pageSize <= 0 then 50 else pageSize;
    var answers, slices := AnswersOf(info, pageSize, wanted), SlicesOf(Filtered(info, wanted), size);
    forall page | 1 <= page <= pages ensures answers(page) == slices(page) {
      AnswerInRange(info, page, pageSize, wanted);
    }
    JoinedAlike(answers, slices, pages);
  }

  /** For every request, times and reasons left over or not: the page is in range, the counts add up to the number
      of keys, and a filter for one status finds as many keys as its count. The page shows the keys
      its number says, and the answers for all pages in turn show the filtered list once. */
  lemma StatusAnswerMeaning(info: Info, page: int, pageSize: int, wanted: Option<int>)
    requires Counted(info)
    ensures var a := StatusAnswer(info, page, pageSize, wanted);
      && 1 <= a.page <= a.totalPages
      && a.page == (if page < 1 then 1 else if page <= a.totalPages then page else a.totalPages)
      && a.pageSize == (if pageSize < 1 then 50 else pageSize)
      && (a.totalPages - 1) * a.pageSize < (if a.total == 0 then 1 else a.total) <= a.totalPages * a.pageSize
      && a.enabledCount + a.manualDisabledCount + a.autoDisabledCount == info.size
      && (wanted == Some(AUTO_DISABLED) ==> a.total == a.autoDisabledCount)
      && (wanted == Some(MANUALLY_DISABLED) ==> a.total == a.manualDisabledCount)
      && (wanted == Some(ENABLED) ==> a.total == a.enabledCount)
      && a.keys == StatusAnswer(info, a.page, pageSize, wanted).keys
      && AnsweredKeys(info, a.totalPages, pageSize, wanted) == Filtered(info, wanted)
  {
    var lines := StatusLines(info, |Keys(info)|);
    var list := Filtered(info, wanted);
    var size := if pageSize <= 0 then 50 else pageSize;
    PagesCover(|list|, size);
    PagesPartition(list, size);
    AnsweredAreFirst(info, TotalPages(|list|, size), pageSize, wanted);
    CountsAddUp(lines);
    CountIsFilter(lines, ENABLED);
    CountIsFilter(lines, MANUALLY_DISABLED);
    CountIsFilter(lines, AUTO_DISABLED);
  }

  // ----- The loops of the actions

  /** What the loops have built after the first `n` indices: the kept keys, and a map whose
      entries were moved to the running new index. */
  function Sifted<T>(keys: seq<T>, keep: int -> bool, n: nat): seq<T>
    requires n <= |keys|
  {
    if n == 0 then [] else Sifted(keys, keep, n - 1) + if keep(n - 1) then [keys[n - 1]] else []
  }

  function Moved<V>(m: map<int, V>, keep: int -> bool, n: nat): map<int, V> {
    if n == 0 then map[]
    else if keep(n - 1) && n - 1 in m then Moved(m, keep, n - 1)[|Kept(n - 1, keep)| := m[n - 1]]
    else Moved(m, keep, n - 1)
  }

  lemma {:induction false} SiftedIsPicked<T>(keys: seq<T>, keep: int -> bool, n: nat)
    requires n <= |keys|
    ensures Within(Kept(n, keep), |keys|) && Sifted(keys, keep, n) == Pick(keys, Kept(n, keep))
  {
    if n > 0 {
      SiftedIsPicked(keys, keep, n - 1);
      if keep(n - 1) {
        PickStep(keys, Kept(n - 1, keep), n - 1);
        assert Kept(n, keep) == Kept(n - 1, keep) + [n - 1];
      } else {
        assert Kept(n, keep) == Kept(n - 1, keep);
      }
    }
  }

  function Renumbering<V>(m: map<int, V>): seq<int> -> map<int, V> {
    kept => Renumber(m, kept)
  }

  /** One more kept index goes on top of what is renumbered already. */
  ghost predicate Stacks<V>(m: map<int, V>, renumber: seq<int> -> map<int, V>) {
    && renumber([]) == map[]
    && (forall kept, i :: i in m ==> renumber(kept + [i]) == renumber(kept)[|kept| := m[i]])
    && (forall kept, i :: i !in m ==> renumber(kept + [i]) == renumber(kept))
  }

  lemma RenumberingStacks<V>(m: map<int, V>)
    ensures Stacks(m, Renumbering(m))
  {
    var renumber := Renumbering(m);
    assert renumber([]) == map[];
    forall kept, i | i in m ensures renumber(kept + [i]) == renumber(kept)[|kept| := m[i]] {
      RenumberTakes(m, kept, i);
    }
    forall kept, i | i !in m ensures renumber(kept + [i]) == renumber(kept) {
      RenumberPasses(m, kept, i);
    }
  }

  lemma {:induction false} MovedStacks<V>(m: map<int, V>, keep: int -> bool, n: nat, renumber: seq<int> -> map<int, V>)
    requires Stacks(m, renumber)
    ensures Moved(m, keep, n) == renumber(Kept(n, keep))
  {
    if n > 0 {
      MovedStacks(m, keep, n - 1, renumber);
      assert keep(n - 1) ==> Kept(n, keep) == Kept(n - 1, keep) + [n - 1];
    }
  }

  lemma MovedIsRenumbered<V>(m: map<int, V>, keep: int -> bool, n: nat)
    ensures Moved(m, keep, n) == Renumber(m, Kept(n, keep))
  {
    RenumberingStacks(m);
    MovedStacks(m, keep, n, Renumbering(m));
  }

  /** What the loops leave after the last index. */
  lemma LoopsRenumber(keys: seq<string>, status: map<int, int>, time: map<int, int>, reason: map<int, string>, keep: int -> bool)
    ensures var n, kept := |keys|, Kept(|keys|, keep);
      && Within(kept, n) && Sifted(keys, keep, n) == Pick(keys, kept)
      && Moved(status, keep, n) == Renumber(status, kept)
      && Moved(time, keep, n) == Renumber(time, kept)
      && Moved(reason, keep, n) == Renumber(reason, kept)
  {
    SiftedIsPicked(keys, keep, |keys|);
    MovedIsRenumbered(status, keep, |keys|);
    MovedIsRenumbered(time, keep, |keys|);
    MovedIsRenumbered(reason, keep, |keys|);
  }

  /** The renumbering loop of `delete_key`. */
  method SkipKey(keys: seq<string>, status: map<int, int>, time: map<int, int>, reason: map<int, string>, k: int)
    returns (remaining: seq<string>, newStatus: map<int, int>, newTime: map<int, int>, newReason: map<int, string>)
    ensures var kept := Kept(|keys|, Without(k));
      && Within(kept, |keys|)
      && remaining == Pick(keys, kept)
      && newStatus == Renumber(Disabled(status), kept)
      && newTime == Renumber(time, kept)
      && newReason == Renumber(reason, kept)
  {
    ghost var keep, disabled := Without(k), Disabled(status);
    var newIndex := 0;
    remaining, newStatus, newTime, newReason := [], map[], map[], map[];
    for i := 0 to |keys|
      invariant newIndex == |Kept(i, keep)| && remaining == Sifted(keys, keep, i)
      invariant newStatus == Moved(disabled, keep, i)
      invariant newTime == Moved(time, keep, i) && newReason == Moved(reason, keep, i)
    {
      if i != k {
        remaining := remaining + [keys[i]];
        if i in status && status[i] != ENABLED {
          newStatus := newStatus[newIndex := status[i]];
        }
        if i in time {
          newTime := newTime[newIndex := time[i]];
        }
        if i in reason {
          newReason := newReason[newIndex := reason[i]];
        }
        newIndex := newIndex + 1;
      }
    }
    SiftedIsPicked(keys, keep, |keys|);
    MovedIsRenumbered(disabled, keep, |keys|);
    MovedIsRenumbered(time, keep, |keys|);
    MovedIsRenumbered(reason, keep, |keys|);
  }

  /** The compacting loop of `delete_disabled_keys`. */
  method SkipDisabled(keys: seq<string>, status: map<int, int>, time: map<int, int>, reason: map<int, string>)
    returns (remaining: seq<string>, deleted: int, newStatus: map<int, int>, newTime: map<int, int>, newReason: map<int, string>)
    ensures var kept := Kept(|keys|, NotAuto(status));
      && Within(kept, |keys|)
      && remaining == Pick(keys, kept)
      && deleted == |keys| - |kept|
      && newStatus == Renumber(Disabled(status), kept)
      && newTime == Renumber(OfDisabled(time, status), kept)
      && newReason == Renumber(OfDisabled(reason, status), kept)
  {
    ghost var keep, disabled := NotAuto(status), Disabled(status);
    ghost var times, reasons := OfDisabled(time, status), OfDisabled(reason, status);
    var newIndex := 0;
    remaining, deleted, newStatus, newTime, newReason := [], 0, map[], map[], map[];
    for i := 0 to |keys|
      invariant newIndex == |Kept(i, keep)| && remaining == Sifted(keys, keep, i) && deleted == i - newIndex
      invariant newStatus == Moved(disabled, keep, i)
      invariant newTime == Moved(times, keep, i) && newReason == Moved(reasons, keep, i)
    {
      var s := if i in status then status[i] else ENABLED;
      if s == AUTO_DISABLED {
        deleted := deleted + 1;
      } else {
        remaining := remaining + [keys[i]];
        if s != ENABLED {
          newStatus := newStatus[newIndex := s];
          if i in time {
            newTime := newTime[newIndex := time[i]];
          }
          if i in reason {
            newReason := newReason[newIndex := reason[i]];
          }
        }
        newIndex := newIndex + 1;
      }
    }
    LoopsRenumber(keys, disabled, times, reasons, keep);
  }

  /** The deduplicating loop of the append branch, with its `seen` set. */
  method Dedupe(keys: seq<string>, inputs: seq<string>) returns (added: seq<string>)
    ensures added == Filter(Uniq(inputs), NotIn(TrimAll(keys)))
  {
    added := Fresh(TrimAll(keys), inputs);
  }

  lemma CountMore(lines: seq<KeyStatus>, line: KeyStatus)
    ensures forall s :: Count(lines + [line], s) == Count(lines, s) + if line.status == s then 1 else 0
  {
    assert (lines + [line])[..|lines|] == lines;
  }

  /** The listing loop of `get_key_status`, with its three counters. */
  method ListKeys(info: Info, keys: seq<string>) returns (lines: seq<KeyStatus>, enabled: nat, manual: nat, auto: nat)
    requires keys == Keys(info)
    ensures lines == StatusLines(info, |keys|)
    ensures enabled == Count(lines, ENABLED) && manual == Count(lines, MANUALLY_DISABLED) && auto == Count(lines, AUTO_DISABLED)
  {
    lines, enabled, manual, auto := [], 0, 0, 0;
    for i := 0 to |keys|
      invariant lines == StatusLines(info, i)
      invariant enabled == Count(lines, ENABLED)
      invariant manual == Count(lines, MANUALLY_DISABLED)
      invariant auto == Count(lines, AUTO_DISABLED)
    {
      var s := if i in info.status then info.status[i] else ENABLED;
      if s == ENABLED {
        enabled := enabled + 1;
      } else if s == MANUALLY_DISABLED {
        manual := manual + 1;
      } else if s == AUTO_DISABLED {
        auto := auto + 1;
      }
      var disabledTime := if s != ENABLED && i in info.time then info.time[i] else 0;
      var why := if s != ENABLED && i in info.reason then info.reason[i] else "";
      CountMore(lines, KeyStatus(i, s, disabledTime, why));
      lines := lines + [KeyStatus(i, s, disabledTime, why)];
    }
  }

  /** The listing, cut down to the requested page. */
  method ListStatus(info: Info, page: int, pageSize: int, wanted: Option<int>) returns (a: StatusPage)
    ensures a == StatusAnswer(info, page, pageSize, wanted)
  {
    var at := if page <= 0 then 1 else page;
    var perPage := if pageSize <= 0 then 50 else pageSize;
    var lines, enabled, manual, auto := ListKeys(info, Parse(info.key, '\n'));
    var list := Filter(lines, HasStatus(wanted));
    var total := |list|;
    PagesCover(total, perPage);
    var pages := (total + perPage - 1) / perPage;
    if total == 0 {
      pages := 1;
    }
    if at > pages {
      at := pages;
    }
    assert list == Filtered(info, wanted) && pages == TotalPages(total, perPage);
    a := StatusPage(PageSlice(list, at, perPage), total, at, perPage, pages, enabled, manual, auto);
  }

  /** The loop of `disable_all_keys`. */
  method DisableEnabled(info: Info) returns (next: map<int, int>, disabled: nat)
    ensures next == info.status + map j | 0 <= j < info.size && StatusOf(info, j) == ENABLED :: MANUALLY_DISABLED
    ensures disabled == 0 <==> forall j :: 0 <= j < info.size ==> StatusOf(info, j) != ENABLED
  {
    disabled, next := 0, info.status;
    for i := 0 to if info.size < 0 then 0 else info.size
      invariant next == info.status + map j | 0 <= j < i && StatusOf(info, j) == ENABLED :: MANUALLY_DISABLED
      invariant disabled == 0 <==> forall j :: 0 <= j < i ==> StatusOf(info, j) != ENABLED
    {
      var s := if i in next then next[i] else ENABLED;
      if s == ENABLED {
        next := next[i := MANUALLY_DISABLED];
        disabled := disabled + 1;
      }
    }
  }

  // ----- The stored channel

  class KeyedChannel {
    var key: string
    var size: int
    var status: map<int, int>
    var time: map<int, int>
    var reason: map<int, string>

    function Columns(): Info
      reads this
    {
      Info(key, size, status, time, reason)
    }

    constructor (info: Info)
      ensures Columns() == info
    {
      key, size, status, time, reason := info.key, info.size, info.status, info.time, info.reason;
    }

    /** `Channel.Update`, with its clean-up of statuses beyond the recounted keys. */
    method Store(newKey: string)
      modifies this
      ensures key == if newKey != "" then newKey else old(key)
      ensures size == |Parse(key, '\n')| && status == Below(old(status), size)
      ensures time == old(time) && reason == old(reason)
    {
      if newKey != "" {
        key := newKey;
      }
      size := |Parse(key, '\n')|;
      ghost var before := status;
      var todo := status.Keys;
      while todo != {}
        invariant todo <= before.Keys
        invariant forall i :: i in status <==> i in before && (i in todo || i < size)
        invariant forall i :: i in status ==> status[i] == before[i]
        decreases todo
        modifies this`status
      {
        var index := Any(todo);
        todo := todo - {index};
        if index >= size {
          status := status - {index};
        }
      }
      SameMap(status, Below(before, size));
    }

    /** Replaces the keys and the maps together. */
    method Rewrite(remaining: seq<string>, newStatus: map<int, int>, newTime: map<int, int>, newReason: map<int, string>)
      modifies this
      ensures Columns() == Update(Info(old(key), old(size), newStatus, newTime, newReason), Join(remaining, '\n'))
    {
      status, time, reason := newStatus, newTime, newReason;
      Store(Join(remaining, '\n'));
    }

    method DisableKey(index: Option<int>) returns (ok: bool)
      modifies this
      ensures Outcome(ok, Columns()) == MultiKey.DisableKey(old(Columns()), index)
    {
      if index.None? || index.value < 0 || index.value >= size {
        return false;
      }
      status := status[index.value := MANUALLY_DISABLED];
      Store(key);
      ok := true;
    }

    method EnableKey(index: Option<int>) returns (ok: bool)
      modifies this
      ensures Outcome(ok, Columns()) == MultiKey.EnableKey(old(Columns()), index)
    {
      if index.None? || index.value < 0 || index.value >= size {
        return false;
      }
      status := status - {index.value};
      time := time - {index.value};
      reason := reason - {index.value};
      Store(key);
      ok := true;
    }

    method EnableAllKeys() returns (ok: bool)
      modifies this
      ensures Outcome(ok, Columns()) == EnableAll(old(Columns()))
    {
      status, time, reason := map[], map[], map[];
      Store(key);
      ok := true;
    }

    method DisableAllKeys() returns (ok: bool)
      modifies this
      ensures Outcome(ok, Columns()) == DisableAll(old(Columns()))
    {
      var next, disabled := DisableEnabled(Columns());
      if disabled == 0 {
        return false;
      }
      status := next;
      Store(key);
      ok := true;
    }

    method DeleteKey(index: Option<int>) returns (ok: bool)
      modifies this
      ensures Outcome(ok, Columns()) == MultiKey.DeleteKey(old(Columns()), index)
    {
      if index.None? || index.value < 0 || index.value >= size {
        return false;
      }
      var remaining, newStatus, newTime, newReason := SkipKey(Parse(key, '\n'), status, time, reason, index.value);
      if |remaining| == 0 {
        return false;
      }
      ghost var next := Info(key, size, newStatus, newTime, newReason);
      assert MultiKey.DeleteKey(Columns(), index) == Outcome(true, Update(next, Join(remaining, '\n')));
      Rewrite(remaining, newStatus, newTime, newReason);
      ok := true;
    }

    method DeleteDisabledKeys() returns (ok: bool)
      modifies this
      ensures Outcome(ok, Columns()) == MultiKey.DeleteDisabledKeys(old(Columns()))
    {
      var remaining, deleted, newStatus, newTime, newReason := SkipDisabled(Parse(key, '\n'), status, time, reason);
      if deleted == 0 {
        return false;
      }
      ghost var next := Info(key, size, newStatus, newTime, newReason);
      assert MultiKey.DeleteDisabledKeys(Columns()) == Outcome(true, Update(next, Join(remaining, '\n')));
      Rewrite(remaining, newStatus, newTime, newReason);
      ok := true;
    }

    /** The append branch of `UpdateChannel`. */
    method AppendKeys(input: string)
      modifies this
      ensures Columns() == Append(old(Columns()), input)
    {
      if key == "" {
        Store(input);
      } else {
        var existing := Parse(key, '\n');
        var added := Dedupe(existing, InputKeys(input));
        Store(Join(existing + added, '\n'));
      }
    }

    /** `get_key_status`. */
    method GetKeyStatus(page: int, pageSize: int, wanted: Option<int>) returns (a: StatusPage)
      ensures a == StatusAnswer(Columns(), page, pageSize, wanted)
    {
      a := ListStatus(Columns(), page, pageSize, wanted);
    }
  }
}
