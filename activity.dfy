/** The lifecycle bookkeeping of app/Activity.java: eleven static boolean
    flags that the lifecycle methods set and clear, and from which the
    class decides when to fire its own callbacks (first create, orientation
    changed, start and stop "from back" or "from home").

    Each lifecycle method is given here twice: as a pure step over a
    set of the flags that are true (Flags, Outcome), about which the lemmas speak,
    and as a method of the Activity class that updates the shared flag
    object field by field and is proved to follow that step. */
module Lifecycle {

  const RESULT_BACK: int := 0xFA
  const RESULT_EXIT: int := 0xFB

  datatype CallbackReason = BackPressed | HomePressed
  datatype ScreenOrientation = Landscape | Portrait

  /** An intent is only passed through; the model identifies it by a number. */
  type Intent = nat

  /** What the activity does that an observer can see: the theme it applies,
      the callbacks it fires and the result it finishes with. */
  datatype Event =
    | ThemeApplied(theme: int)
    | FirstCreate
    | OrientationChanged(orientation: ScreenOrientation)
    | StartCallback(reason: CallbackReason)
    | StopCallback(reason: CallbackReason)
    | AnotherActivityStarted(intent: Intent)
    | Finished(resultCode: int)

  /** The eleven static flags. */
  datatype Flag =
    | RESTART | INITED | OCHANGED | CREATED | STARTED | ASTARTED
    | BPRESSED | ARESULTED | PAUSED | STOPPED | DESTROYED

  /** The flags that are currently true. */
  type Flags = set<Flag>

  /** The flags after a step, the events it produced, and whether it posted
      the deferred "home pressed" check. */
  datatype Outcome = Outcome(flags: Flags, events: seq<Event>, posted: bool)

  // ------------------------------------------------------------ steps

  function ThemeEvents(theme: int): seq<Event>
  {
    if theme != 0 then [ThemeApplied(theme)] else []
  }

  /** onCreate: the custom theme is applied first; a pending restart is
      then only consumed. Otherwise CREATED and INITED end set, and the
      first create fires, once, exactly when INITED was clear. */
  function CreateStep(f: Flags, theme: int): (o: Outcome)
    ensures RESTART in f ==> o.flags == f - {RESTART} && o.events == ThemeEvents(theme)
    ensures RESTART !in f ==> o.flags == f + {CREATED, INITED}
    ensures FirstCreate in o.events <==> RESTART !in f && INITED !in f
    ensures Count(o.events, FirstCreate) <= 1
  {
    if RESTART in f then Outcome(f - {RESTART}, ThemeEvents(theme), false)
    else if INITED !in f then Outcome(f + {CREATED, INITED}, ThemeEvents(theme) + [FirstCreate], false)
    else
      assert f + {CREATED} == f + {CREATED, INITED};
      Outcome(f + {CREATED}, ThemeEvents(theme), false)
  }

  /** onStart: the orientation check, then the "from back" check, then the
      "from home" check, each on the flags the previous one left. STARTED
      ends set. The orientation branch fires exactly when PAUSED, STOPPED,
      DESTROYED and CREATED are all set; it clears those four and sets
      OCHANGED, so that neither start callback fires in the same call.
      Otherwise "from back" fires when DESTROYED and CREATED are set, and
      "from home" when STOPPED is set and ARESULTED is not. */
  function StartStep(f: Flags, portrait: bool): (o: Outcome)
    ensures var turned := {PAUSED, STOPPED, DESTROYED, CREATED} <= f;
            var orientation := OrientationChanged(if portrait then Portrait else Landscape);
            && STARTED in o.flags
            && (orientation in o.events <==> turned)
            && (turned ==> o.flags == f + {STARTED, OCHANGED} - {PAUSED, STOPPED, DESTROYED, CREATED}
                           && o.events == [orientation])
            && (!turned ==> (StartCallback(BackPressed) in o.events <==> {DESTROYED, CREATED} <= f))
            && (!turned ==> (StartCallback(HomePressed) in o.events <==> STOPPED in f && ARESULTED !in f))
            && (!turned ==> o.flags == (if {DESTROYED, CREATED} <= f then f + {STARTED} - {DESTROYED, CREATED}
                                        else f + {STARTED}))
            && (!turned ==> o.events == (if {DESTROYED, CREATED} <= f then [StartCallback(BackPressed)] else [])
                                        + (if STOPPED in f && ARESULTED !in f then [StartCallback(HomePressed)] else []))
    ensures !o.posted
    ensures (INITED in o.flags <==> INITED in f) && (RESTART in o.flags <==> RESTART in f)
    ensures FirstCreate !in o.events
  {
    var f1 := f + {STARTED};
    var turned := PAUSED in f1 && STOPPED in f1 && DESTROYED in f1 && CREATED in f1;
    var f2 := if turned then f1 + {OCHANGED} - {PAUSED, STOPPED, DESTROYED, CREATED} else f1;
    var e1 := if turned then [OrientationChanged(if portrait then Portrait else Landscape)] else [];
    var fromBack := DESTROYED in f2 && CREATED in f2;
    var f3 := if fromBack then f2 - {DESTROYED, CREATED} else f2;
    var e2 := if fromBack then [StartCallback(BackPressed)] else [];
    var e3 := if STOPPED in f3 && ARESULTED !in f3 then [StartCallback(HomePressed)] else [];
    Outcome(f3, e1 + e2 + e3, false)
  }

  /** onBackPressed: BPRESSED ends set, no other flag changes and nothing
      fires. */
  function BackPressedStep(f: Flags): (o: Outcome)
    ensures BPRESSED in o.flags && o.flags - {BPRESSED} == f - {BPRESSED}
    ensures o.events == [] && !o.posted
  {
    Outcome(f + {BPRESSED}, [], false)
  }

  /** onActivityResult: ARESULTED is set, and an exit result is passed on
      as the activity's own result before it finishes; no other result
      finishes the activity. */
  function ActivityResultStep(f: Flags, resultCode: int): (o: Outcome)
    ensures o.flags == f + {ARESULTED}
    ensures Finished(RESULT_EXIT) in o.events <==> resultCode == RESULT_EXIT
    ensures |o.events| <= 1
  {
    Outcome(f + {ARESULTED}, if resultCode == RESULT_EXIT then [Finished(RESULT_EXIT)] else [], false)
  }

  /** onStop sets STOPPED and fires nothing; after another activity was
      started it clears the four flags and posts nothing; otherwise it
      posts the deferred check exactly when PAUSED is set. */
  function StopStep(f: Flags): (o: Outcome)
    ensures STOPPED in o.flags && o.events == []
    ensures {ASTARTED, PAUSED, CREATED, STARTED} <= f ==>
              o.flags == f + {STOPPED} - {ASTARTED, PAUSED, CREATED, STARTED} && !o.posted
    ensures !({ASTARTED, PAUSED, CREATED, STARTED} <= f) ==>
              o.flags == f + {STOPPED} && (o.posted <==> PAUSED in f)
  {
    var f1 := f + {STOPPED};
    if ASTARTED in f1 && PAUSED in f1 && CREATED in f1 && STARTED in f1 then
      Outcome(f1 - {ASTARTED, PAUSED, CREATED, STARTED}, [], false)
    else
      Outcome(f1, [], PAUSED in f1)
  }

  /** The posted check: "home pressed" (clearing PAUSED) exactly when the
      activity was neither destroyed, turned nor given a result meanwhile;
      it always ends with OCHANGED and ARESULTED clear and touches no other
      flag. */
  function DeferredStep(f: Flags): (o: Outcome)
    ensures var home := DESTROYED !in f && OCHANGED !in f && ARESULTED !in f;
            && (StopCallback(HomePressed) in o.events <==> home)
            && o.flags == (if home then f - {PAUSED} else f) - {OCHANGED, ARESULTED}
    ensures OCHANGED !in o.flags && ARESULTED !in o.flags
  {
    var home := DESTROYED !in f && OCHANGED !in f && ARESULTED !in f;
    var f1 := if home then f - {PAUSED} else f;
    var f2 := if OCHANGED in f1 then f1 - {OCHANGED} else f1;
    var f3 := if ARESULTED in f2 then f2 - {ARESULTED} else f2;
    Outcome(f3, if home then [StopCallback(HomePressed)] else [], false)
  }

  /** onPause: PAUSED ends set, no other flag changes and nothing fires. */
  function PauseStep(f: Flags): (o: Outcome)
    ensures PAUSED in o.flags && o.flags - {PAUSED} == f - {PAUSED}
    ensures o.events == [] && !o.posted
  {
    Outcome(f + {PAUSED}, [], false)
  }

  /** onDestroy does nothing during a restart. Otherwise it sets DESTROYED,
      unless a back press came after a result (then five flags are
      cleared); a back press with PAUSED and STOPPED set fires the "from
      back" stop and clears exactly those three flags. */
  function DestroyStep(f: Flags): (o: Outcome)
    ensures RESTART in f ==> o == Outcome(f, [], false)
    ensures RESTART !in f && !({BPRESSED, PAUSED, ARESULTED, STARTED, STOPPED} <= f) ==> DESTROYED in o.flags
    ensures var back := RESTART !in f && {BPRESSED, PAUSED, STOPPED} <= f && !({ARESULTED, STARTED} <= f);
            && (back ==> o.flags == f + {DESTROYED} - {BPRESSED, PAUSED, STOPPED}
                         && o.events == [StopCallback(BackPressed)])
            && (StopCallback(BackPressed) in o.events <==> back)
    ensures RESTART !in f && {BPRESSED, PAUSED, ARESULTED, STARTED, STOPPED} <= f ==>
              o == Outcome(f - {DESTROYED, BPRESSED, PAUSED, STARTED, STOPPED}, [], false)
    ensures RESTART !in f && !({BPRESSED, PAUSED, STOPPED} <= f) ==> o == Outcome(f + {DESTROYED}, [], false)
    ensures !o.posted
  {
    if RESTART in f then Outcome(f, [], false)
    else
      var f1 := f + {DESTROYED};
      if BPRESSED in f1 && PAUSED in f1 && ARESULTED in f1 && STARTED in f1 && STOPPED in f1 then
        Outcome(f1 - {DESTROYED, BPRESSED, PAUSED, STARTED, STOPPED}, [], false)
      else if BPRESSED in f1 && PAUSED in f1 && STOPPED in f1 then
        Outcome(f1 - {BPRESSED, PAUSED, STOPPED}, [StopCallback(BackPressed)], false)
      else
        Outcome(f1, [], false)
  }

  /** restart: set RESTART, then onDestroy and onCreate. Outside a restart
      it leaves every flag as it was (RESTART is set and consumed within
      the call), and only the theme is applied again. */
  function RestartStep(f: Flags, theme: int): (o: Outcome)
    ensures RESTART !in f ==> o.flags == f && o.events == ThemeEvents(theme)
  {
    var d := DestroyStep(f + {RESTART});
    var c := CreateStep(d.flags, theme);
    assert RESTART !in f ==> f + {RESTART} - {RESTART} == f && d.events == [];
    Outcome(c.flags, d.events + c.events, false)
  }

  /** onAnotherActivityStarted, called by every startActivity variant:
      ASTARTED ends set, no other flag changes, and the callback fires
      with the intent. */
  function AnotherActivityStep(f: Flags, intent: Intent): (o: Outcome)
    ensures ASTARTED in o.flags && o.flags - {ASTARTED} == f - {ASTARTED}
    ensures o.events == [AnotherActivityStarted(intent)]
  {
    Outcome(f + {ASTARTED}, [AnotherActivityStarted(intent)], false)
  }

  // ------------------------------------------------------------ runs

  /** Anything that can happen to an activity, in the order it happens. */
  datatype Input =
    | Create(theme: int)
    | Start(portrait: bool)
    | Back
    | Result(code: int)
    | Stop
    | Deferred
    | Pause
    | Destroy
    | Restart(theme: int)
    | StartAnother(intent: Intent)

  function Step(f: Flags, i: Input): Outcome
  {
    match i
    case Create(theme) => CreateStep(f, theme)
    case Start(portrait) => StartStep(f, portrait)
    case Back => BackPressedStep(f)
    case Result(code) => ActivityResultStep(f, code)
    case Stop => StopStep(f)
    case Deferred => DeferredStep(f)
    case Pause => PauseStep(f)
    case Destroy => DestroyStep(f)
    case Restart(theme) => RestartStep(f, theme)
    case StartAnother(intent) => AnotherActivityStep(f, intent)
  }

  /** The events of a run of inputs, in order. */
  function RunEvents(f: Flags, inputs: seq<Input>): seq<Event>
    decreases |inputs|
  {
    if inputs == [] then [] else Step(f, inputs[0]).events + RunEvents(Step(f, inputs[0]).flags, inputs[1..])
  }

  /** The flags after a run of inputs. */
  function RunFlags(f: Flags, inputs: seq<Input>): Flags
    decreases |inputs|
  {
    if inputs == [] then f else RunFlags(Step(f, inputs[0]).flags, inputs[1..])
  }

  /** How many times e occurs in es. */
  function Count(es: seq<Event>, e: Event): nat
  {
    multiset(es)[e]
  }

  // ------------------------------------------------------------ properties

  /** A step fires the first create at most once, only while INITED is
      clear, never clears INITED, and leaves RESTART clear. */
  lemma StepFacts(f: Flags, i: Input)
    requires RESTART !in f
    ensures Count(Step(f, i).events, FirstCreate) <= (if INITED in f then 0 else 1)
    ensures INITED in f ==> INITED in Step(f, i).flags
    ensures RESTART !in Step(f, i).flags
    ensures Count(Step(f, i).events, FirstCreate) == 1 ==> INITED in Step(f, i).flags
  {
    var o := Step(f, i);
    if !i.Create? {
      NoCreateStepFacts(f, i, o);
      assert Count(o.events, FirstCreate) == 0;
    }
  }

  /** Every step but onCreate keeps INITED and RESTART as they were and
      fires no first create. */
  lemma NoCreateStepFacts(f: Flags, i: Input, o: Outcome)
    requires RESTART !in f && !i.Create? && o == Step(f, i)
    ensures FirstCreate !in o.events
    ensures (INITED in o.flags <==> INITED in f) && RESTART !in o.flags
  {
    if !(i.Restart? || i.Start? || i.Deferred? || i.Destroy?) {
      SettingStepFacts(f, i, o);
    }
  }

  /** The steps that only set a flag (or stop) fire no first create. */
  lemma SettingStepFacts(f: Flags, i: Input, o: Outcome)
    requires RESTART !in f && (i.Back? || i.Result? || i.Stop? || i.Pause? || i.StartAnother?) && o == Step(f, i)
    ensures FirstCreate !in o.events
    ensures (INITED in o.flags <==> INITED in f) && RESTART !in o.flags
  {
  }

  /** Over any run that starts outside a restart the first create fires at
      most once, and never when INITED was already set. */
  lemma {:induction false} FirstCreateAtMostOnce(f: Flags, inputs: seq<Input>)
    requires RESTART !in f
    ensures Count(RunEvents(f, inputs), FirstCreate) <= (if INITED in f then 0 else 1)
    ensures RESTART !in RunFlags(f, inputs)
    decreases |inputs|
  {
    if inputs != [] {
      var o := Step(f, inputs[0]);
      StepFacts(f, inputs[0]);
      FirstCreateAtMostOnce(o.flags, inputs[1..]);
    }
  }

  // ------------------------------------------------------------ the classes

  /** The static flags, shared by every Activity; the field holds the
      flags that are currently true, and each statement of the source that
      sets or clears flags adds them to it or removes them from it. */
  class StaticFlags {
    var value: Flags

    /** The class is loaded with every flag false. */
    constructor ()
      ensures value == {}
    {
      value := {};
    }
  }

  class Activity {
    const statics: StaticFlags
    var customTheme: int
    /** What the activity has done so far. */
    var events: seq<Event>
    /** Deferred checks posted to the stop handler that have not run yet. */
    var posted: nat

    constructor (statics: StaticFlags)
      ensures this.statics == statics && customTheme == 0 && events == [] && posted == 0
    {
      this.statics := statics;
      customTheme := 0;
      events := [];
      posted := 0;
    }

    method OnCreate()
      modifies this, statics
      ensures statics.value == CreateStep(old(statics.value), customTheme).flags
      ensures events == old(events) + CreateStep(old(statics.value), customTheme).events
      ensures customTheme == old(customTheme) && posted == old(posted)
    {
      ghost var f := statics.value;
      if customTheme != 0 {
        events := events + [ThemeApplied(customTheme)];
      }
      assert events == old(events) + ThemeEvents(customTheme);
      if RESTART in statics.value {
        statics.value := statics.value - {RESTART};
        return;
      }
      statics.value := statics.value + {CREATED};
      if INITED !in statics.value {
        statics.value := statics.value + {INITED};
        events := events + [FirstCreate];
        assert CreateStep(f, customTheme).events == ThemeEvents(customTheme) + [FirstCreate];
      }
    }

    method OnStart(portrait: bool)
      modifies this, statics
      ensures statics.value == StartStep(old(statics.value), portrait).flags
      ensures events == old(events) + StartStep(old(statics.value), portrait).events
      ensures customTheme == old(customTheme) && posted == old(posted)
    {
      var f := statics.value + {STARTED};
      if PAUSED in f && STOPPED in f && DESTROYED in f && CREATED in f {
        events := events + [OrientationChanged(if portrait then Portrait else Landscape)];
        f := f + {OCHANGED} - {PAUSED, STOPPED, DESTROYED, CREATED};
      }
      if DESTROYED in f && CREATED in f {
        events := events + [StartCallback(BackPressed)];
        f := f - {DESTROYED, CREATED};
      }
      if STOPPED in f && ARESULTED !in f {
        events := events + [StartCallback(HomePressed)];
      }
      statics.value := f;
    }

    method OnBackPressed()
      modifies statics
      ensures statics.value == BackPressedStep(old(statics.value)).flags
    {
      statics.value := statics.value + {BPRESSED};
    }

    method OnActivityResult(requestCode: int, resultCode: int)
      modifies this, statics
      ensures statics.value == ActivityResultStep(old(statics.value), resultCode).flags
      ensures events == old(events) + ActivityResultStep(old(statics.value), resultCode).events
      ensures customTheme == old(customTheme) && posted == old(posted)
    {
      statics.value := statics.value + {ARESULTED};
      if resultCode == RESULT_EXIT {
        events := events + [Finished(RESULT_EXIT)];
      }
    }

    /** Finishes telling the parent to do nothing. */
    method ForceBack()
      modifies this
      ensures events == old(events) + [Finished(RESULT_BACK)]
      ensures customTheme == old(customTheme) && posted == old(posted)
    {
      events := events + [Finished(RESULT_BACK)];
    }

    /** Finishes telling the parent to exit as well. */
    method ForceExit()
      modifies this
      ensures events == old(events) + [Finished(RESULT_EXIT)]
      ensures customTheme == old(customTheme) && posted == old(posted)
    {
      events := events + [Finished(RESULT_EXIT)];
    }

    method OnStop()
      modifies this, statics
      ensures statics.value == StopStep(old(statics.value)).flags
      ensures events == old(events)
      ensures posted == old(posted) + (if StopStep(old(statics.value)).posted then 1 else 0)
      ensures customTheme == old(customTheme)
    {
      var f := statics.value + {STOPPED};
      statics.value := f;
      if ASTARTED in f && PAUSED in f && CREATED in f && STARTED in f {
        statics.value := f - {ASTARTED, PAUSED, CREATED, STARTED};
        return;
      }
      if PAUSED in f {
        posted := posted + 1;
      }
    }

    /** One posted check runs. */
    method RunDeferredCheck()
      requires posted > 0
      modifies this, statics
      ensures statics.value == DeferredStep(old(statics.value)).flags
      ensures events == old(events) + DeferredStep(old(statics.value)).events
      ensures posted == old(posted) - 1 && customTheme == old(customTheme)
    {
      posted := posted - 1;
      var f := statics.value;
      if DESTROYED !in f && OCHANGED !in f && ARESULTED !in f {
        f := f - {PAUSED};
        events := events + [StopCallback(HomePressed)];
      }
      if OCHANGED in f {
        f := f - {OCHANGED};
      }
      if ARESULTED in f {
        f := f - {ARESULTED};
      }
      statics.value := f;
    }

    method OnPause()
      modifies statics
      ensures statics.value == PauseStep(old(statics.value)).flags
    {
      statics.value := statics.value + {PAUSED};
    }

    method OnDestroy()
      modifies this, statics
      ensures statics.value == DestroyStep(old(statics.value)).flags
      ensures events == old(events) + DestroyStep(old(statics.value)).events
      ensures customTheme == old(customTheme) && posted == old(posted)
    {
      if RESTART in statics.value {
        return;
      }
      var f := statics.value + {DESTROYED};
      statics.value := f;
      if BPRESSED in f && PAUSED in f && ARESULTED in f && STARTED in f && STOPPED in f {
        statics.value := f - {DESTROYED, BPRESSED, PAUSED, STARTED, STOPPED};
        return;
      }
      if BPRESSED in f && PAUSED in f && STOPPED in f {
        events := events + [StopCallback(BackPressed)];
        statics.value := f - {BPRESSED, PAUSED, STOPPED};
      }
    }

    method Restart()
      modifies this, statics
      ensures statics.value == RestartStep(old(statics.value), customTheme).flags
      ensures events == old(events) + RestartStep(old(statics.value), customTheme).events
      ensures customTheme == old(customTheme) && posted == old(posted)
    {
      statics.value := statics.value + {RESTART};
      OnDestroy();
      OnCreate();
    }

    method ChangeTheme(resid: int)
      modifies this, statics
      ensures customTheme == resid
      ensures statics.value == RestartStep(old(statics.value), resid).flags
      ensures events == old(events) + RestartStep(old(statics.value), resid).events
      ensures posted == old(posted)
    {
      customTheme := resid;
      Restart();
    }

    method OnAnotherActivityStarted(intent: Intent)
      modifies this, statics
      ensures statics.value == AnotherActivityStep(old(statics.value), intent).flags
      ensures events == old(events) + AnotherActivityStep(old(statics.value), intent).events
      ensures customTheme == old(customTheme) && posted == old(posted)
    {
      statics.value := statics.value + {ASTARTED};
      events := events + [AnotherActivityStarted(intent)];
    }

    /** startActivities: the callback runs once per intent, in order. */
    method StartActivities(intents: seq<Intent>)
      modifies this, statics
      ensures statics.value == if intents == [] then old(statics.value) else old(statics.value) + {ASTARTED}
      ensures events == old(events) + seq(|intents|, k requires 0 <= k < |intents| => AnotherActivityStarted(intents[k]))
      ensures customTheme == old(customTheme) && posted == old(posted)
    {
      var k := 0;
      while k < |intents|
        invariant 0 <= k <= |intents|
        invariant statics.value == if k == 0 then old(statics.value) else old(statics.value) + {ASTARTED}
        invariant events == old(events) + seq(k, j requires 0 <= j < k => AnotherActivityStarted(intents[j]))
        invariant customTheme == old(customTheme) && posted == old(posted)
      {
        OnAnotherActivityStarted(intents[k]);
        k := k + 1;
      }
    }
  }
}
