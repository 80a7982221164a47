/**
 * The ping-pong pair of particle-state textures and the frame loop that
 * draws from one and steps into the other.
 *
 * Texture and framebuffer names are opaque naturals. GPU texture memory is a
 * map from texture name to its contents. The stepping pass (`compute_fs.glsl`)
 * is not part of this model: it is a parameter `step`, applied to the state
 * read, the frame's elapsed time and the floor `minY`.
 */
module PingPong {
  import Particles

  /** The floor passed to the stepping pass every frame (`minY_uniform`). */
  const MinY: real := -2.0

  /** The stepping pass: previous state, elapsed seconds, floor -> next state. */
  type Stepper = (seq<real>, real, real) -> seq<real>

  /** Texels in one particle-state texture: `szparticle` columns by `nparticles` rows. */
  const TexelCount: nat := Particles.SzParticle * Particles.NParticles

  /**
   * The pass renders into the whole `szparticle` x `nparticles` viewport, so
   * a full state gives a full state.
   */
  ghost predicate FillsViewport(step: Stepper)
  {
    forall s: seq<real>, dt: real :: |s| == TexelCount ==> |step(s, dt, MinY)| == TexelCount
  }

  /**
   * The handles the frame loop works with: the texture read this frame
   * (`particletex`), the other texture (`particletex2`), and the texture
   * currently attached as the framebuffer's colour attachment 0.
   */
  datatype Handles = Handles(cur: nat, next: nat, attachment: nat)

  /** The write target is the texture that is not current. */
  predicate WritesNext(h: Handles)
  {
    h.attachment == h.next
  }

  /**
   * `swapparticletex`: exchange the two names and attach the texture that was
   * current. Whatever the state before, the write target afterwards is the new
   * non-current texture.
   */
  function Swapped(h: Handles): (r: Handles)
    ensures r.cur == h.next && r.next == h.cur
    ensures WritesNext(r)
  {
    Handles(h.next, h.cur, h.cur)
  }

  /** Swapping twice restores the original pair, and the whole state when it wrote to `next`. */
  lemma SwapTwice(h: Handles)
    ensures Swapped(Swapped(h)).cur == h.cur && Swapped(Swapped(h)).next == h.next
    ensures WritesNext(h) <==> Swapped(Swapped(h)) == h
  {
  }

  /** The handles at the start of frame `n`, `n` swaps after `h`. */
  function AfterFrames(h: Handles, n: nat): Handles
  {
    if n == 0 then h else Swapped(AfterFrames(h, n - 1))
  }

  /** Every two frames the roles come back: the state alternates between two values. */
  lemma {:induction false} AfterFramesAlternates(h: Handles, n: nat)
    requires WritesNext(h)
    ensures AfterFrames(h, n) == if n % 2 == 0 then h else Swapped(h)
  {
    if n > 0 {
      AfterFramesAlternates(h, n - 1);
      SwapTwice(h);
    }
  }

  /**
   * With distinct textures and the write target on the non-current one, in no
   * frame does the step write the texture it reads.
   */
  lemma {:induction false} NoReadWriteAliasing(h: Handles, n: nat)
    requires WritesNext(h) && h.cur != h.next
    ensures AfterFrames(h, n).cur != AfterFrames(h, n).attachment
    ensures {AfterFrames(h, n).cur, AfterFrames(h, n).next} == {h.cur, h.next}
  {
    AfterFramesAlternates(h, n);
  }

  /** The texture drawn in frame `n + 1` is the one the step wrote in frame `n`. */
  lemma {:induction false} DrawSeesLastWrite(h: Handles, n: nat)
    requires WritesNext(h)
    ensures AfterFrames(h, n + 1).cur == AfterFrames(h, n).attachment
  {
    AfterFramesAlternates(h, n);
  }

  /** The contents of the current texture after stepping from `s` once per entry of `dts`. */
  function Stepped(step: Stepper, s: seq<real>, dts: seq<real>): seq<real>
    decreases |dts|
  {
    if dts == [] then s else Stepped(step, step(s, dts[0], MinY), dts[1..])
  }

  lemma {:induction false} SteppedSnoc(step: Stepper, s: seq<real>, dts: seq<real>, dt: real)
    ensures Stepped(step, s, dts + [dt]) == step(Stepped(step, s, dts), dt, MinY)
    decreases |dts|
  {
    if dts != [] {
      assert (dts + [dt])[1..] == dts[1..] + [dt];
      SteppedSnoc(step, step(s, dts[0], MinY), dts[1..], dt);
    }
  }

  /** What one iteration of the frame loop did with the particle textures. */
  datatype FrameLog = FrameLog(drawn: nat, read: nat, written: nat)

  /** The particle textures, the particle framebuffer and the GPU memory behind them. */
  class ParticleStore {
    var particletex: nat
    var particletex2: nat
    const particlefbo: nat
    var attachment: nat
    var textures: map<nat, seq<real>>

    ghost function State(): Handles
      reads this
    {
      Handles(particletex, particletex2, attachment)
    }

    /**
     * Two distinct textures of the same `szparticle` x `nparticles` shape
     * exist, and the framebuffer writes the non-current one.
     */
    ghost predicate Valid()
      reads this
    {
      && WritesNext(State())
      && particletex != particletex2
      && textures.Keys == {particletex, particletex2}
      && |textures[particletex]| == TexelCount
      && |textures[particletex2]| == TexelCount
    }

    /** The contents the particle pass draws from. */
    ghost function Current(): seq<real>
      reads this
      requires Valid()
    {
      textures[particletex]
    }

    /**
     * `particletex = genparticletex(), particletex2 = genparticletexempty()`
     * followed by `genparticlefbo(particletex2)`: the fresh framebuffer's
     * colour attachment is the empty texture. `empty` stands for whatever the
     * uninitialised texture holds. The two names come from separate
     * `glGenTextures` calls and are therefore distinct.
     */
    constructor (tex: nat, initial: seq<real>, tex2: nat, empty: seq<real>, fbo: nat)
      requires tex != tex2
      requires |initial| == TexelCount && |empty| == TexelCount
      ensures Valid()
      ensures particletex == tex && particletex2 == tex2 && particlefbo == fbo
      ensures attachment == tex2
      ensures textures == map[tex := initial, tex2 := empty]
      ensures Current() == initial
    {
      particletex := tex;
      particletex2 := tex2;
      particlefbo := fbo;
      attachment := tex2;
      textures := map[tex := initial, tex2 := empty];
    }

    /** `swapparticletex(particletex, particletex2, particlefbo)`. */
    method Swap()
      modifies this
      ensures State() == Swapped(old(State()))
      ensures textures == old(textures)
      ensures old(Valid()) ==> Valid()
    {
      var tmp, tmp2 := particletex, particletex2;
      particletex := tmp2;
      particletex2 := tmp;
      attachment := tmp;
    }

    /**
     * One iteration of the window loop, as far as particle state goes: draw
     * from `particletex`, run the step reading `particletex` into the
     * framebuffer's attachment, then swap.
     */
    method Frame(step: Stepper, dt: real) returns (log: FrameLog)
      requires Valid() && FillsViewport(step)
      modifies this
      ensures Valid()
      ensures log.drawn == log.read == old(particletex)
      ensures log.written == old(attachment) && log.read != log.written
      ensures State() == Swapped(old(State()))
      ensures Current() == step(old(Current()), dt, MinY)
      ensures textures == old(textures)[log.written := Current()]
    {
      var drawn := particletex;
      var read := particletex;
      var written := attachment;
      textures := textures[written := step(textures[read], dt, MinY)];
      Swap();
      log := FrameLog(drawn, read, written);
    }

    /**
     * The window loop run for `|dts|` iterations before the close request;
     * `dts[i]` is the time measured in iteration `i`. The current texture ends
     * up holding the initial state stepped once per frame, and the log agrees
     * with the alternation of `AfterFrames`.
     */
    method RunLoop(step: Stepper, dts: seq<real>) returns (logs: seq<FrameLog>)
      requires Valid() && FillsViewport(step)
      modifies this
      ensures Valid()
      ensures textures.Keys == old(textures.Keys)
      ensures State() == AfterFrames(old(State()), |dts|)
      ensures Current() == Stepped(step, old(Current()), dts)
      ensures |dts| == 0 ==> textures == old(textures)
      ensures |dts| > 0 ==> textures[particletex2] == Stepped(step, old(Current()), dts[..|dts| - 1])
      ensures |logs| == |dts|
      ensures forall i :: 0 <= i < |logs| ==>
        && logs[i].drawn == logs[i].read == AfterFrames(old(State()), i).cur
        && logs[i].written == AfterFrames(old(State()), i).attachment
        && logs[i].read != logs[i].written
    {
      ghost var h0 := State();
      ghost var s0 := Current();
      ghost var t0 := textures;
      logs := [];
      var i := 0;
      while i < |dts|
        invariant 0 <= i <= |dts|
        invariant Valid()
        invariant State() == AfterFrames(h0, i)
        invariant Current() == Stepped(step, s0, dts[..i])
        invariant textures.Keys == t0.Keys
        invariant i == 0 ==> textures == t0
        invariant i > 0 ==> textures[particletex2] == Stepped(step, s0, dts[..i - 1])
        invariant |logs| == i
        invariant forall j :: 0 <= j < i ==>
          && logs[j].drawn == logs[j].read == AfterFrames(h0, j).cur
          && logs[j].written == AfterFrames(h0, j).attachment
          && logs[j].read != logs[j].written
      {
        ghost var before := Current();
        var log := Frame(step, dts[i]);
        assert textures[particletex2] == before;
        logs := logs + [log];
        assert dts[..i + 1] == dts[..i] + [dts[i]];
        SteppedSnoc(step, s0, dts[..i], dts[i]);
        i := i + 1;
      }
      assert dts[..i] == dts;
    }
  }

  /** A run's log: frame `i + 1` draws what frame `i` wrote, and no frame aliases. */
  lemma {:induction false} LogChains(h: Handles, logs: seq<FrameLog>, i: nat)
    requires WritesNext(h)
    requires i + 1 < |logs|
    requires forall j :: 0 <= j < |logs| ==>
      logs[j].drawn == AfterFrames(h, j).cur && logs[j].written == AfterFrames(h, j).attachment
    ensures logs[i + 1].drawn == logs[i].written
  {
    DrawSeesLastWrite(h, i);
  }
}
