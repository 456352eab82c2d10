/** The audio element seen from the players: the commands they send it, in
    order. Each player records what it asks of the element instead of
    driving a real one. */
module Transport {

  datatype Command =
    | Load(src: string)       // `audio.src = url`
    | Unload                  // `audio.src = ''` or `removeAttribute('src')`
    | Play                    // `audio.play()`
    | Pause                   // `audio.pause()`
    | Seek(position: real)    // `audio.currentTime = t`
    | SetVolume(level: real)  // `audio.volume = v`
    | SetMuted(muted: bool)   // `audio.muted = b`

  /** Whether a command sets or clears the element's source. */
  predicate ChangesSource(c: Command) {
    c.Load? || c.Unload?
  }

  /** The element's `src` after the commands: that of the last `Load`, or
      the empty string after an `Unload` or before any load. */
  function Source(cmds: seq<Command>): (r: string)
    ensures (forall j :: 0 <= j < |cmds| ==> !cmds[j].Load?) ==> r == ""
  {
    if cmds == [] then ""
    else
      match cmds[|cmds| - 1]
      case Load(src) => src
      case Unload => ""
      case _ => Source(cmds[..|cmds| - 1])
  }

  /** The source is that of the last load when nothing after it loads or
      unloads. */
  lemma {:induction false} SourceIsLastLoad(cmds: seq<Command>, i: nat)
    requires i < |cmds| && cmds[i].Load?
    requires forall j :: i < j < |cmds| ==> !ChangesSource(cmds[j])
    ensures Source(cmds) == cmds[i].src
    decreases |cmds|
  {
    if i < |cmds| - 1 {
      SourceIsLastLoad(cmds[..|cmds| - 1], i);
    }
  }

  /** Commands that neither load nor unload leave the source as it was. */
  lemma {:induction false} SourceSkipsPlayback(cmds: seq<Command>, more: seq<Command>)
    requires forall j :: 0 <= j < |more| ==> !ChangesSource(more[j])
    ensures Source(cmds + more) == Source(cmds)
    decreases |more|
  {
    if more != [] {
      var front := more[..|more| - 1];
      assert (cmds + more)[..|cmds + more| - 1] == cmds + front;
      assert (cmds + more)[|cmds + more| - 1] == more[|more| - 1];
      assert !ChangesSource(more[|more| - 1]);
      SourceSkipsPlayback(cmds, front);
    } else {
      assert cmds + more == cmds;
    }
  }
}
