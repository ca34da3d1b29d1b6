/** The audio and layout state of public/app.js: which video plays sound,
    which container has the main role and which the picture-in-picture (pip)
    role, whether the pip is minimized, and the pending single click that
    tells a single click from a double click. Elements are named by role;
    only their `muted` flags and their `main`, `pip` and `hidden` classes
    are modelled. */
module Player {
  import opened Wrappers

  /** Delay of the single-click timer, in milliseconds. */
  const ClickDelayMs: nat := 300

  datatype Video = MainVideo | PipVideo
  datatype Container = MainContainer | PipContainer
  /** The CSS classes the double-click handler adds and removes, and any
      other class a container may carry. */
  datatype ClassName = MainClass | PipClass | HiddenClass | Other(name: string)

  /** The video a container holds. */
  function VideoOf(c: Container): Video
  {
    if c == MainContainer then MainVideo else PipVideo
  }

  function OtherVideo(v: Video): (w: Video)
    ensures w != v
  {
    if v == MainVideo then PipVideo else MainVideo
  }

  // ---------------------------------------------------------------------------
  // Audio

  /** The `muted` flags of the two videos. */
  datatype Audio = Audio(mainMuted: bool, pipMuted: bool)

  function Muted(a: Audio, v: Video): bool
  {
    if v == MainVideo then a.mainMuted else a.pipMuted
  }

  predicate AtMostOneUnmuted(a: Audio)
  {
    a.mainMuted || a.pipMuted
  }

  /** `toggleMute` as written: it reads `!videoEl.muted` into `isMuted`, mutes
      both videos, and unmutes the target when `isMuted` holds, that is when
      the target was NOT muted. */
  function ToggleAsWritten(a: Audio, v: Video): (r: Audio)
    ensures AtMostOneUnmuted(r)
    ensures Muted(r, OtherVideo(v))
  {
    var isMuted := !Muted(a, v);
    var allMuted := Audio(true, true);
    if isMuted then
      (if v == MainVideo then allMuted.(mainMuted := false) else allMuted.(pipMuted := false))
    else allMuted
  }

  /** As written, the target's own flag never changes: a muted video can
      never be given sound by a click. */
  lemma ToggleAsWrittenKeepsTarget(a: Audio, v: Video)
    ensures Muted(ToggleAsWritten(a, v), v) == Muted(a, v)
  {
  }

  /** With both videos muted, a click on the main video leaves it muted. */
  lemma ToggleAsWrittenCounterexample()
    ensures Muted(ToggleAsWritten(Audio(true, true), MainVideo), MainVideo)
    ensures !Muted(Toggle(Audio(true, true), MainVideo), MainVideo)
  {
  }

  /** `toggleMute` as its comments describe it: a muted target becomes the
      only video with sound, an unmuted target is muted, and either way the
      other video is muted. */
  function Toggle(a: Audio, v: Video): (r: Audio)
    ensures AtMostOneUnmuted(r)
    ensures Muted(r, OtherVideo(v))
    ensures !Muted(r, v) <==> Muted(a, v)
  {
    var wasMuted := Muted(a, v);
    var allMuted := Audio(true, true);
    if wasMuted then
      (if v == MainVideo then allMuted.(mainMuted := false) else allMuted.(pipMuted := false))
    else allMuted
  }

  /** Two clicks on the same video give it sound and take it away again, in
      either order. */
  lemma ToggleTwice(a: Audio, v: Video)
    ensures Toggle(Toggle(a, v), v) == (if Muted(a, v) then Audio(true, true) else Toggle(Audio(true, true), v))
  {
  }

  // ---------------------------------------------------------------------------
  // Layout

  /** `isSwapped`, `isPipMinimized` and the class lists of the two containers. */
  datatype Layout = Layout(isSwapped: bool, isPipMinimized: bool,
                           mainClasses: set<ClassName>, pipClasses: set<ClassName>)

  function ClassesOf(l: Layout, c: Container): set<ClassName>
  {
    if c == MainContainer then l.mainClasses else l.pipClasses
  }

  /** The container that currently has the main role. */
  function MainRole(isSwapped: bool): Container
  {
    if isSwapped then PipContainer else MainContainer
  }

  /** The container that currently has the pip role. */
  function PipRole(isSwapped: bool): (c: Container)
    ensures c != MainRole(isSwapped)
  {
    if isSwapped then MainContainer else PipContainer
  }

  /** The `isMain` flag a container's click listener passes: `!isSwapped` for
      the main container, `isSwapped` for the pip container. Exactly the
      main-role container's clicks count as main-role clicks. */
  function IsMainTarget(c: Container, isSwapped: bool): (isMain: bool)
    ensures isMain <==> c == MainRole(isSwapped)
  {
    match c
    case MainContainer => !isSwapped
    case PipContainer => isSwapped
  }

  /** Class names the handlers never add or remove. */
  function Others(names: set<string>): set<ClassName>
  {
    set n | n in names :: Other(n)
  }

  /** The main-role container has class `main` and is visible; the pip-role
      container has class `pip`, and is hidden exactly when the pip is
      minimized. */
  predicate Consistent(l: Layout)
  {
    var m := ClassesOf(l, MainRole(l.isSwapped));
    var p := ClassesOf(l, PipRole(l.isSwapped));
    MainClass in m && PipClass !in m && HiddenClass !in m &&
    PipClass in p && MainClass !in p && (HiddenClass in p <==> l.isPipMinimized)
  }

  /** The layout after `handleDoubleClick(isMain)`. */
  function DoubleClick(l: Layout, isMain: bool): (r: Layout)
    // minimize: only the pip-role container's `hidden` class follows the new flag
    ensures isMain ==> r.isSwapped == l.isSwapped && r.isPipMinimized == !l.isPipMinimized
    ensures isMain ==> (HiddenClass in ClassesOf(r, PipRole(r.isSwapped)) <==> r.isPipMinimized)
    ensures isMain ==> ClassesOf(r, MainRole(l.isSwapped)) == ClassesOf(l, MainRole(l.isSwapped))
    ensures isMain ==> ClassesOf(r, PipRole(l.isSwapped)) - {HiddenClass} ==
                       ClassesOf(l, PipRole(l.isSwapped)) - {HiddenClass}
    // swap: roles exchange, nothing is hidden, other classes are kept
    ensures !isMain ==> r.isSwapped == !l.isSwapped && !r.isPipMinimized
    ensures !isMain ==> forall c: Container ::
              HiddenClass !in ClassesOf(r, c) &&
              (MainClass in ClassesOf(r, c) <==> c == MainRole(r.isSwapped)) &&
              (PipClass in ClassesOf(r, c) <==> c == PipRole(r.isSwapped)) &&
              ClassesOf(r, c) - {MainClass, PipClass, HiddenClass} ==
                ClassesOf(l, c) - {MainClass, PipClass, HiddenClass}
  {
    if isMain then
      var minimized := !l.isPipMinimized;
      if l.isSwapped then l.(isPipMinimized := minimized, mainClasses := WithHidden(l.mainClasses, minimized))
      else l.(isPipMinimized := minimized, pipClasses := WithHidden(l.pipClasses, minimized))
    else
      var swapped := !l.isSwapped;
      if swapped then Layout(swapped, false, AsPip(l.mainClasses), AsMain(l.pipClasses))
      else Layout(swapped, false, AsMain(l.mainClasses), AsPip(l.pipClasses))
  }

  function WithHidden(s: set<ClassName>, hidden: bool): set<ClassName>
  {
    if hidden then s + {HiddenClass} else s - {HiddenClass}
  }

  /** The classes of a container that takes the main role and is shown. */
  function AsMain(s: set<ClassName>): set<ClassName>
  {
    s - {PipClass, HiddenClass} + {MainClass}
  }

  /** The classes of a container that takes the pip role and is shown. */
  function AsPip(s: set<ClassName>): set<ClassName>
  {
    s - {MainClass, HiddenClass} + {PipClass}
  }

  /** Both kinds of double click keep the layout consistent. */
  lemma DoubleClickKeepsConsistent(l: Layout, isMain: bool)
    requires Consistent(l)
    ensures Consistent(DoubleClick(l, isMain))
  {
  }

  /** Swapping twice restores the role classes and `isSwapped`; the pip ends
      up shown. */
  lemma SwapTwice(l: Layout)
    requires Consistent(l)
    ensures DoubleClick(DoubleClick(l, false), false) ==
            l.(isPipMinimized := false,
               mainClasses := l.mainClasses - {HiddenClass},
               pipClasses := l.pipClasses - {HiddenClass})
  {
    var once := DoubleClick(l, false);
    var twice := DoubleClick(once, false);
    assert twice.mainClasses == l.mainClasses - {HiddenClass};
    assert twice.pipClasses == l.pipClasses - {HiddenClass};
  }

  /** Minimizing twice from the main-role container restores the layout. */
  lemma MinimizeTwice(l: Layout)
    requires Consistent(l)
    ensures DoubleClick(DoubleClick(l, true), true) == l
  {
    var twice := DoubleClick(DoubleClick(l, true), true);
    assert twice.mainClasses == l.mainClasses;
    assert twice.pipClasses == l.pipClasses;
  }

  // ---------------------------------------------------------------------------
  // The page's closure state

  class Player {
    var mainMuted: bool
    var pipMuted: bool
    var isSwapped: bool
    var isPipMinimized: bool
    var mainClasses: set<ClassName>
    var pipClasses: set<ClassName>
    /** `clickTimeout`: the armed single-click timer, with the video its
        callback toggles, or `None` when no click is pending. */
    var clickPending: Option<Video>

    function AudioState(): Audio
      reads this
    {
      Audio(mainMuted, pipMuted)
    }

    function LayoutState(): Layout
      reads this
    {
      Layout(isSwapped, isPipMinimized, mainClasses, pipClasses)
    }

    ghost predicate Valid()
      reads this
    {
      Consistent(LayoutState())
    }

    /** The page once loaded: camera 1 in the main container, camera 2 in the
        pip container, nothing minimized, no click pending; the videos start
        with the given `muted` flags, and each container carries, besides
        `main` or `pip`, the other class names the page gives it. */
    constructor (mainMuted: bool, pipMuted: bool, mainExtra: set<string>, pipExtra: set<string>)
      ensures Valid()
      ensures AudioState() == Audio(mainMuted, pipMuted)
      ensures LayoutState() == Layout(false, false, {MainClass} + Others(mainExtra), {PipClass} + Others(pipExtra))
      ensures clickPending == None
    {
      this.mainMuted := mainMuted;
      this.pipMuted := pipMuted;
      isSwapped := false;
      isPipMinimized := false;
      mainClasses := {MainClass} + Others(mainExtra);
      pipClasses := {PipClass} + Others(pipExtra);
      clickPending := None;
    }

    /** `toggleMute(videoEl)` as written: `isMuted` is read as the negation
        of the target's flag, both videos are muted, and the target is
        unmuted when `isMuted` holds. The target keeps its own flag. */
    method ToggleMute(v: Video)
      modifies this`mainMuted, this`pipMuted
      ensures AudioState() == ToggleAsWritten(old(AudioState()), v)
      ensures AtMostOneUnmuted(AudioState()) && Muted(AudioState(), OtherVideo(v))
      ensures Muted(AudioState(), v) == Muted(old(AudioState()), v)
    {
      var isMuted := !(if v == MainVideo then mainMuted else pipMuted);
      mainMuted := true;
      pipMuted := true;
      if isMuted {
        if v == MainVideo { mainMuted := false; } else { pipMuted := false; }
      } else {
        if v == MainVideo { mainMuted := true; } else { pipMuted := true; }
      }
    }

    /** `handleDoubleClick(isMain)`: a main-role double click flips
        `isPipMinimized` and hides or shows the pip-role container; a
        pip-role double click swaps the roles' classes, clears
        `isPipMinimized` and shows both containers. */
    method HandleDoubleClick(isMain: bool)
      requires Valid()
      modifies this`isSwapped, this`isPipMinimized, this`mainClasses, this`pipClasses
      ensures Valid()
      ensures LayoutState() == DoubleClick(old(LayoutState()), isMain)
    {
      ghost var before := LayoutState();
      if isMain {
        isPipMinimized := !isPipMinimized;
        if isPipMinimized {
          if isSwapped { mainClasses := mainClasses + {HiddenClass}; }
          else { pipClasses := pipClasses + {HiddenClass}; }
        } else {
          if isSwapped { mainClasses := mainClasses - {HiddenClass}; }
          else { pipClasses := pipClasses - {HiddenClass}; }
        }
      } else {
        isSwapped := !isSwapped;
        if isSwapped {
          mainClasses := mainClasses - {MainClass};
          mainClasses := mainClasses + {PipClass};
          pipClasses := pipClasses - {PipClass};
          pipClasses := pipClasses + {MainClass};
        } else {
          mainClasses := mainClasses - {PipClass};
          mainClasses := mainClasses + {MainClass};
          pipClasses := pipClasses - {MainClass};
          pipClasses := pipClasses + {PipClass};
        }
        isPipMinimized := false;
        mainClasses := mainClasses - {HiddenClass};
        pipClasses := pipClasses - {HiddenClass};
      }
      DoubleClickKeepsConsistent(before, isMain);
    }

    /** A click on container `c`, through its listener, into `handleClick`.
        With no click pending it only arms the single-click timer for the
        container's video; with one pending it cancels it and runs the double
        click with the flag of the container clicked now, so a double click
        never changes the audio. */
    method HandleClick(c: Container)
      requires Valid()
      modifies this
      ensures Valid()
      ensures AudioState() == old(AudioState())
      ensures old(clickPending).None? ==>
                clickPending == Some(VideoOf(c)) && LayoutState() == old(LayoutState())
      ensures old(clickPending).Some? ==>
                clickPending == None &&
                LayoutState() == DoubleClick(old(LayoutState()), IsMainTarget(c, old(isSwapped)))
    {
      var isMain := IsMainTarget(c, isSwapped);
      var video := VideoOf(c);
      if clickPending.Some? {
        clickPending := None;
        HandleDoubleClick(isMain);
      } else {
        clickPending := Some(video);
      }
    }

    /** The single-click timer fires: the pending click is cleared and
        `toggleMute` runs, as written, on the video it was armed for. */
    method OnClickTimer()
      requires Valid()
      requires clickPending.Some?
      modifies this
      ensures Valid()
      ensures clickPending == None
      ensures AudioState() == ToggleAsWritten(old(AudioState()), old(clickPending).value)
      ensures LayoutState() == old(LayoutState())
    {
      var video := clickPending.value;
      clickPending := None;
      ToggleMute(video);
    }
  }
}
