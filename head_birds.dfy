/** The birds circling a knocked-out head (HeadBirds): a timer that, once it
    exceeds the current delay, plays a random clip on the first idle audio
    source of a pool, then restarts with a new random delay. Time is `real`;
    every random number is an explicit draw. */
module SoundScheduler {
  import opened Common

  /** An AudioClip, an opaque id. */
  type Clip = int

  // ---------------------------------------------------------------------------
  // Draws
  // ---------------------------------------------------------------------------

  /** Random.Range(lo, hi) for floats, fed a draw u in [0, 1]: a value
      between the two bounds, both included. */
  function Between(lo: real, hi: real, u: real): (r: real)
    requires 0.0 <= u <= 1.0
    ensures lo <= hi ==> lo <= r <= hi
    ensures hi <= lo ==> hi <= r <= lo
  {
    var w := hi - lo;
    var x := u * w;
    ScaleWithin(u, w);
    assert w >= 0.0 ==> 0.0 <= x <= w;
    assert w <= 0.0 ==> w <= x <= 0.0;
    lo + x
  }

  /** A fraction of a width lies between 0 and the width. */
  lemma ScaleWithin(u: real, w: real)
    requires 0.0 <= u <= 1.0
    ensures w >= 0.0 ==> 0.0 <= u * w <= w
    ensures w <= 0.0 ==> w <= u * w <= 0.0
  {
    assert w - u * w == (1.0 - u) * w;
  }

  /** GetRandomClip: null without a clip array, otherwise one of its clips
      (an empty array is indexed at 0 and throws, so it is excluded). */
  function RandomClip(sounds: Option<seq<Clip>>, d: nat): (r: Option<Clip>)
    requires sounds.Some? ==> |sounds.value| > 0
    ensures r.None? <==> sounds.None?
    ensures r.Some? ==> r.value in sounds.value
  {
    if sounds.None? then None else Some(sounds.value[d % |sounds.value|])
  }

  // ---------------------------------------------------------------------------
  // The timer as a value
  // ---------------------------------------------------------------------------

  /** _timer and _curDelay. */
  datatype Timer = Timer(elapsed: real, delay: real)

  /** One Update: time is added; once past the delay a sound is attempted;
      a played sound restarts the timer with a delay drawn from the range,
      a failed attempt leaves the timer running. */
  function Tick(t: Timer, dt: real, played: bool, lo: real, hi: real, u: real): Timer
    requires 0.0 <= u <= 1.0
  {
    if t.elapsed + dt > t.delay && played then Timer(0.0, Between(lo, hi, u))
    else Timer(t.elapsed + dt, t.delay)
  }

  /** One frame: its delta time, whether a source was free, and its delay draw. */
  datatype Frame = Frame(dt: real, sourceFree: bool, u: real)

  predicate DrawsValid(frames: seq<Frame>) {
    forall i :: 0 <= i < |frames| ==> 0.0 <= frames[i].u <= 1.0
  }

  /** Successive Updates. */
  function Run(t: Timer, frames: seq<Frame>, lo: real, hi: real): Timer
    requires DrawsValid(frames)
    decreases |frames|
  {
    if frames == [] then t
    else
      var f := frames[|frames| - 1];
      Tick(Run(t, frames[..|frames| - 1], lo, hi), f.dt, f.sourceFree, lo, hi, f.u)
  }

  /** The time the frames add up to. */
  function Elapsed(frames: seq<Frame>): real
    decreases |frames|
  {
    if frames == [] then 0.0 else Elapsed(frames[..|frames| - 1]) + frames[|frames| - 1].dt
  }

  /** The timer is in a reachable shape: never negative, and its delay either
      the cleared 0 or a value of the configured range. */
  predicate TimerValid(t: Timer, lo: real, hi: real) {
    && t.elapsed >= 0.0
    && (t.delay == 0.0 || (lo <= hi ==> lo <= t.delay <= hi))
  }

  /** Updates with non-negative frame times keep the timer valid. */
  lemma TickKeepsValid(t: Timer, dt: real, played: bool, lo: real, hi: real, u: real)
    requires TimerValid(t, lo, hi) && dt >= 0.0 && 0.0 <= u <= 1.0
    ensures TimerValid(Tick(t, dt, played, lo, hi, u), lo, hi)
  {
  }

  /** While the time added stays within the delay nothing is attempted: the
      timer only accumulates. */
  lemma {:induction false} QuietUntilDelay(t: Timer, frames: seq<Frame>, lo: real, hi: real)
    requires DrawsValid(frames)
    requires forall i :: 0 <= i < |frames| ==> frames[i].dt >= 0.0
    requires t.elapsed + Elapsed(frames) <= t.delay
    ensures Run(t, frames, lo, hi) == Timer(t.elapsed + Elapsed(frames), t.delay)
    decreases |frames|
  {
    if frames != [] {
      var front := frames[..|frames| - 1];
      assert DrawsValid(front) by {
        forall i | 0 <= i < |front| ensures 0.0 <= front[i].u <= 1.0 { assert front[i] == frames[i]; }
      }
      ElapsedGrows(frames);
      QuietUntilDelay(t, front, lo, hi);
    }
  }

  /** With non-negative frame times, the elapsed time of a prefix is at most
      that of the whole. */
  lemma {:induction false} ElapsedGrows(frames: seq<Frame>)
    requires |frames| > 0
    requires forall i :: 0 <= i < |frames| ==> frames[i].dt >= 0.0
    ensures Elapsed(frames[..|frames| - 1]) <= Elapsed(frames)
  {
  }

  /** When no source is ever free the timer keeps growing, whatever the delay. */
  lemma {:induction false} BusyPoolKeepsCounting(t: Timer, frames: seq<Frame>, lo: real, hi: real)
    requires DrawsValid(frames)
    requires forall i :: 0 <= i < |frames| ==> !frames[i].sourceFree
    ensures Run(t, frames, lo, hi) == Timer(t.elapsed + Elapsed(frames), t.delay)
    decreases |frames|
  {
    if frames != [] {
      var front := frames[..|frames| - 1];
      assert DrawsValid(front) by {
        forall i | 0 <= i < |front| ensures 0.0 <= front[i].u <= 1.0 { assert front[i] == frames[i]; }
      }
      assert forall i :: 0 <= i < |front| ==> front[i] == frames[i];
      BusyPoolKeepsCounting(t, front, lo, hi);
    }
  }

  // ---------------------------------------------------------------------------
  // The component
  // ---------------------------------------------------------------------------

  /** An AudioSource of the pool: its settings, whether the engine reports
      it playing, and the clips PlayOneShot was asked to play. */
  class AudioSource {
    var playOnAwake: bool
    var clip: Option<Clip>
    var loop: bool
    var isPlaying: bool
    var oneShots: seq<Option<Clip>>

    constructor (playOnAwake: bool, clip: Option<Clip>, loop: bool, isPlaying: bool)
      ensures this.playOnAwake == playOnAwake && this.clip == clip && this.loop == loop
      ensures this.isPlaying == isPlaying && oneShots == []
    {
      this.playOnAwake := playOnAwake;
      this.clip := clip;
      this.loop := loop;
      this.isPlaying := isPlaying;
      oneShots := [];
    }
  }

  class HeadBirds {
    const sounds: Option<seq<Clip>>
    const minDelay: real
    const maxDelay: real
    /** _audioSourcesPool, null when not set. */
    const pool: array?<AudioSource>
    var enabled: bool
    var timer: real
    var curDelay: real

    /** The pooled sources. */
    function Sources(): set<AudioSource>
      reads pool
    {
      if pool == null then {} else set i | 0 <= i < pool.Length :: pool[i]
    }

    /** PlaySfx would find a source: no pool at all, or an idle source. */
    predicate SourceFree()
      reads pool, Sources()
    {
      pool == null || exists i :: 0 <= i < pool.Length && !pool[i].isPlaying
    }

    /** A fresh component with the serialized defaults of the delay range. */
    constructor (sounds: Option<seq<Clip>>, pool: array?<AudioSource>)
      ensures this.sounds == sounds && this.pool == pool
      ensures minDelay == 0.3 && maxDelay == 0.5
      ensures !enabled && timer == 0.0 && curDelay == 0.0
    {
      this.sounds := sounds;
      this.pool := pool;
      minDelay := 0.3;
      maxDelay := 0.5;
      enabled := false;
      timer := 0.0;
      curDelay := 0.0;
    }

    /** Awake: every pooled source is made silent at start, not looping and
        without a clip; nothing else about them changes. */
    method Awake()
      modifies Sources()
      ensures pool != null ==> forall i :: 0 <= i < pool.Length ==>
                !pool[i].playOnAwake && pool[i].clip.None? && !pool[i].loop
      ensures forall s :: s in Sources() ==> s.isPlaying == old(s.isPlaying) && s.oneShots == old(s.oneShots)
    {
      if pool != null {
        var i := 0;
        while i < pool.Length
          invariant 0 <= i <= pool.Length
          invariant forall j :: 0 <= j < i ==> !pool[j].playOnAwake && pool[j].clip.None? && !pool[j].loop
          invariant forall s :: s in Sources() ==> s.isPlaying == old(s.isPlaying) && s.oneShots == old(s.oneShots)
        {
          pool[i].playOnAwake := false;
          pool[i].clip := None;
          pool[i].loop := false;
          i := i + 1;
        }
      }
    }

    method OnEnable()
      modifies this`enabled
      ensures enabled
    {
      enabled := true;
    }

    /** OnDisable: the flag is cleared and the timer and delay reset to 0. */
    method OnDisable()
      modifies this`enabled, this`timer, this`curDelay
      ensures !enabled && timer == 0.0 && curDelay == 0.0
    {
      enabled := false;
      timer := 0.0;
      curDelay := 0.0;
    }

    /** GetRandomClip. */
    method GetRandomClip(d: nat) returns (c: Option<Clip>)
      requires sounds.Some? ==> |sounds.value| > 0
      ensures c == RandomClip(sounds, d)
    {
      if sounds.None? {
        return None;
      }
      c := Some(sounds.value[d % |sounds.value|]);
    }

    /** PlaySfx: true without a pool; otherwise a random clip is played on
        the first source that is not playing, and the result is false iff
        every source is playing. At most that one source changes. */
    method PlaySfx(d: nat) returns (played: bool)
      requires pool != null && SourceFree() && sounds.Some? ==> |sounds.value| > 0
      modifies Sources()
      ensures played == old(SourceFree())
      ensures pool != null && played ==>
                exists i :: 0 <= i < pool.Length && !pool[i].isPlaying
                            && (forall j :: 0 <= j < i ==> pool[j].isPlaying)
                            && pool[i].oneShots == old(pool[i].oneShots) + [RandomClip(sounds, d)]
                            && forall s :: s in Sources() && s != pool[i] ==> s.oneShots == old(s.oneShots)
      ensures pool != null && !played ==> forall s :: s in Sources() ==> s.oneShots == old(s.oneShots)
      ensures forall s :: s in Sources() ==>
                s.isPlaying == old(s.isPlaying) && s.playOnAwake == old(s.playOnAwake)
                && s.clip == old(s.clip) && s.loop == old(s.loop)
    {
      if pool == null {
        return true;
      }
      var i := 0;
      while i < pool.Length
        invariant 0 <= i <= pool.Length
        invariant forall j :: 0 <= j < i ==> pool[j].isPlaying
      {
        var aSrc := pool[i];
        if !aSrc.isPlaying {
          var c := GetRandomClip(d);
          aSrc.oneShots := aSrc.oneShots + [c];
          return true;
        }
        i := i + 1;
      }
      return false;
    }

    /** Update: frame time is added; past the delay a sound is attempted, and
        only a played sound restarts the timer with a drawn delay. */
    method Update(deltaTime: real, d: nat, u: real)
      requires timer + deltaTime > curDelay && pool != null && SourceFree() && sounds.Some? ==> |sounds.value| > 0
      requires 0.0 <= u <= 1.0
      modifies this`timer, this`curDelay, Sources()
      ensures Timer(timer, curDelay) == Tick(old(Timer(timer, curDelay)), deltaTime, old(SourceFree()), minDelay, maxDelay, u)
      ensures old(timer) + deltaTime > old(curDelay) && pool != null && old(SourceFree()) ==>
                exists i :: 0 <= i < pool.Length && !pool[i].isPlaying
                            && (forall j :: 0 <= j < i ==> pool[j].isPlaying)
                            && pool[i].oneShots == old(pool[i].oneShots) + [RandomClip(sounds, d)]
                            && forall s :: s in Sources() && s != pool[i] ==> s.oneShots == old(s.oneShots)
      ensures !(old(timer) + deltaTime > old(curDelay) && pool != null && old(SourceFree())) ==>
                forall s :: s in Sources() ==> s.oneShots == old(s.oneShots)
      ensures forall s :: s in Sources() ==>
                s.isPlaying == old(s.isPlaying) && s.playOnAwake == old(s.playOnAwake)
                && s.clip == old(s.clip) && s.loop == old(s.loop)
    {
      timer := timer + deltaTime;
      if timer > curDelay {
        var played := PlaySfx(d);
        if played {
          timer := 0.0;
          curDelay := Between(minDelay, maxDelay, u);
        }
      }
    }
  }
}
