/** The state of the writer in terms of what happened: flags, recipe id and masks go back to single events. */
module RtdeWriterHistory {
  import opened RtdeWriter
  import opened RtdeWriterRuns

  /** Event j gives the writer a recipe: no thread is there. */
  predicate GivesRecipe(es: seq<Event>, j: nat, types: Types)
    requires j < |es|
  {
    es[j].SetInputRecipe? && !Run(es[..j], types).running && Run(es[..j], types).thread == Absent
  }

  /** Event j starts the thread. */
  predicate Starts(es: seq<Event>, j: nat, types: Types)
    requires j < |es|
  {
    es[j].Init? && !Run(es[..j], types).running && Run(es[..j], types).thread == Absent
  }

  /** Event j announces data: a package, or a setter that returns true. */
  predicate Announces(es: seq<Event>, j: nat, types: Types)
    requires j < |es|
  {
    es[j].SendPackage? || (es[j].Set? && Succeeds(Run(es[..j], types), es[j].call))
  }

  predicate Takes(es: seq<Event>, j: nat, types: Types)
    requires j < |es|
  {
    Swaps(Run(es[..j], types), es[j])
  }

  ghost predicate EndsInMask(name: string) {
    exists front: string :: name == front + "_mask"
  }

  // The last event of its kind

  ghost predicate GivesLastRecipe(es: seq<Event>, j: nat, types: Types) {
    j < |es| && GivesRecipe(es, j, types) && forall i :: j < i < |es| ==> !GivesRecipe(es, i, types)
  }

  ghost predicate StartsLast(es: seq<Event>, j: nat, types: Types) {
    j < |es| && Starts(es, j, types) && forall i :: j < i < |es| ==> !Starts(es, i, types)
  }

  /** Event j starts the thread, and nothing stops it from then on. */
  ghost predicate StartsForGood(es: seq<Event>, j: nat, types: Types) {
    j < |es| && Starts(es, j, types) && forall i :: j < i < |es| ==> es[i] != SignalStop
  }

  /** What event j announces is neither taken from then on nor dropped by a new start. */
  ghost predicate AnnouncesStill(es: seq<Event>, j: nat, types: Types) {
    && j < |es| && Announces(es, j, types)
    && forall i :: j < i < |es| ==> !Takes(es, i, types) && !Starts(es, i, types)
  }

  /** One more event: the earlier candidates stay unless it rules them out. */
  lemma OneMoreEvent(es: seq<Event>, j: nat, types: Types)
    requires es != []
    ensures var (front, n) := (es[..|es| - 1], |es| - 1);
            && (GivesLastRecipe(es, j, types) <==>
                  if j == n then GivesRecipe(es, n, types) else GivesLastRecipe(front, j, types) && !GivesRecipe(es, n, types))
            && (StartsLast(es, j, types) <==>
                  if j == n then Starts(es, n, types) else StartsLast(front, j, types) && !Starts(es, n, types))
            && (StartsForGood(es, j, types) <==>
                  if j == n then Starts(es, n, types) else StartsForGood(front, j, types) && es[n] != SignalStop)
            && (AnnouncesStill(es, j, types) <==>
                  if j == n then Announces(es, n, types)
                  else AnnouncesStill(front, j, types) && !Takes(es, n, types) && !Starts(es, n, types))
  {
    hide GivesRecipe, Starts, Takes, Announces;
    var front := es[..|es| - 1];
    forall i | 0 <= i < |front|
      ensures front[i] == es[i] && GivesRecipe(front, i, types) == GivesRecipe(es, i, types)
              && Starts(front, i, types) == Starts(es, i, types) && Takes(front, i, types) == Takes(es, i, types)
              && Announces(front, i, types) == Announces(es, i, types)
    {
      SameEvent(es, i, types);
    }
  }

  lemma SameEvent(es: seq<Event>, i: nat, types: Types)
    requires i < |es| - 1
    ensures var front := es[..|es| - 1];
            && front[i] == es[i] && GivesRecipe(front, i, types) == GivesRecipe(es, i, types)
            && Starts(front, i, types) == Starts(es, i, types) && Takes(front, i, types) == Takes(es, i, types)
            && Announces(front, i, types) == Announces(es, i, types)
  {
    hide Run, Succeeds, Swaps;
    assert es[..|es| - 1][..i] == es[..i];
  }

  /** Masks are in use exactly if they are in the recipe that the writer was given last. */
  lemma {:induction false} UsedMasksExactly(es: seq<Event>, types: Types, name: string)
    ensures name in Run(es, types).usedMasks <==>
            EndsInMask(name) && exists j: nat :: GivesLastRecipe(es, j, types) && name in es[j].recipe
  {
    if es != [] {
      var (front, n) := (es[..|es| - 1], |es| - 1);
      UsedMasksExactly(front, types, name);
      MasksChangeWithRecipe(Run(front, types), es[n], types);
      forall j: nat {
        OneMoreEvent(es, j, types);
      }
      assert GivesRecipe(es, n, types) ==> Run(es, types).usedMasks == Masks(es[n].recipe);
      hide Run, Step, Masks, EndsInMask, IsMask, GivesRecipe, GivesLastRecipe;
      if GivesRecipe(es, n, types) {
        MasksAreInRecipe(es[n].recipe, name);
        MaskNames(name);
      }
    }
  }

  lemma MaskNames(name: string)
    ensures IsMask(name) <==> EndsInMask(name)
  {
    if IsMask(name) {
      assert name == name[..|name| - 5] + "_mask";
    }
  }

  /** The recipe id, and so that of every package sent, is the one that the thread was last started with. */
  lemma {:induction false} RecipeIdExactly(es: seq<Event>, types: Types) returns (j: nat)
    ensures Run(es, types).thread != Absent ==> StartsLast(es, j, types) && Run(es, types).recipeId == es[j].id
  {
    j := 0;
    if es != [] {
      var (front, n) := (es[..|es| - 1], |es| - 1);
      j := RecipeIdExactly(front, types);
      FlagsChange(Run(front, types), es[n], types);
      j := if Starts(es, n, types) then n else j;
      OneMoreEvent(es, j, types);
      hide Step, StartsLast;
    }
  }

  /** The writer runs exactly if it was started and not stopped since. */
  lemma {:induction false} RunningExactly(es: seq<Event>, types: Types)
    ensures Run(es, types).running <==> exists j: nat :: StartsForGood(es, j, types)
  {
    if es != [] {
      var (front, n) := (es[..|es| - 1], |es| - 1);
      RunningExactly(front, types);
      FlagsChange(Run(front, types), es[n], types);
      OneMoreEvent(es, n, types);
      if Run(front, types).running {
        var j: nat :| StartsForGood(front, j, types);
        OneMoreEvent(es, j, types);
      }
      forall j: nat | StartsForGood(es, j, types) ensures Run(es, types).running {
        OneMoreEvent(es, j, types);
      }
    }
  }

  /** New data is marked exactly if some was announced and since then neither taken nor dropped by a new start. */
  lemma {:induction false} NewDataExactly(es: seq<Event>, types: Types)
    ensures Run(es, types).newData <==> exists j: nat :: AnnouncesStill(es, j, types)
  {
    if es != [] {
      var (front, n) := (es[..|es| - 1], |es| - 1);
      NewDataExactly(front, types);
      FlagsChange(Run(front, types), es[n], types);
      OneMoreEvent(es, n, types);
      hide Step, Succeeds, Swaps;
      if Run(front, types).newData {
        var j: nat :| AnnouncesStill(front, j, types);
        OneMoreEvent(es, j, types);
      }
      forall j: nat | AnnouncesStill(es, j, types) ensures Run(es, types).newData {
        OneMoreEvent(es, j, types);
      }
    }
  }

  lemma FlagsChange(s: State, e: Event, types: Types)
    ensures var (t, free) := (Step(s, e, types), !s.running && s.thread == Absent);
            && t.recipeId == (if e.Init? && free then e.id else s.recipeId)
            && (t.thread != Absent ==> s.thread != Absent || (e.Init? && free))
            && (t.running <==> (e.Init? && free) || (s.running && e != SignalStop))
            && (t.newData <==> e.SendPackage? || (e.Set? && Succeeds(s, e.call))
                               || (s.newData && !Swaps(s, e) && !(e.Init? && free)))
  {
    hide DataPackages.EmptyFields, Assignments, AssignAll, Masks, ResetOne;
  }
}
