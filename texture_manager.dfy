// gl/GLTextureManager.java: a LIFO pool of GL texture names.  Released names go
// on the end of the pool after glDeleteTextures; newTextureHandle pops from the
// end, throws away names that are no longer textures and falls back to a name
// from glGenTextures.  The GL context's set of texture names is the field live:
// glIsTexture(h) is h in live, glDeleteTextures removes a name and binding a
// name (in loadTexture) makes it a texture.

module TextureManager {
  import opened JavaText

  /** newTextureHandle's scan of the pool from its end: the first name that is
      still a texture, and the pool left behind (everything below it). */
  function PopValid(handles: seq<int>, live: set<int>): (r: (Option<int>, seq<int>))
    ensures |r.1| <= |handles| && r.1 == handles[..|r.1|]
    decreases |handles|
  {
    if |handles| == 0 then (None, [])
    else
      var top := handles[|handles| - 1];
      if top in live then (Some(top), handles[..|handles| - 1])
      else PopValid(handles[..|handles| - 1], live)
  }

  /** The name returned is the topmost pooled name that is a texture; the names
      above it are dropped for good and the ones below it stay, in order.  With
      no such name, the pool ends up empty. */
  lemma {:induction false} PopValidSpec(handles: seq<int>, live: set<int>)
    ensures var (h, rest) := PopValid(handles, live);
      (h.Some? ==> |rest| < |handles| && h.value == handles[|rest|] && h.value in live)
      && (h.None? ==> rest == [])
      && (forall j :: (if h.Some? then |rest| + 1 else 0) <= j < |handles| ==> handles[j] !in live)
    decreases |handles|
  {
    if |handles| > 0 && handles[|handles| - 1] !in live {
      PopValidSpec(handles[..|handles| - 1], live);
    }
  }

  /** Last in, first out: a name pushed while it is still a texture is the next
      one handed out, and the pool is back as it was. */
  lemma PushThenPop(handles: seq<int>, live: set<int>, h: int)
    requires h in live
    ensures PopValid(handles + [h], live) == (Some(h), handles)
  {
    assert (handles + [h])[..|handles|] == handles;
  }

  /** A released name is no longer a texture, so the pool skips it: it is never
      handed out again from the pool. */
  lemma ReleasedNameSkipped(handles: seq<int>, live: set<int>, h: int)
    ensures PopValid(handles + [h], live - {h}) == PopValid(handles, live - {h})
  {
    assert (handles + [h])[..|handles|] == handles;
  }

  function Names(s: seq<int>): set<int>
  {
    set h | h in s
  }

  class Manager {
    /** The pool, oldest first. */
    var handles: seq<int>
    /** The texture names of the GL context. */
    var live: set<int>
    /** The names glGenTextures hands out, in order, and how many it has given. */
    const driver: nat -> int
    var generated: nat
    /** BuildConfig.DEBUG. */
    const debug: bool

    /** Name 0 is never a texture. */
    ghost predicate Valid()
      reads this
    {
      0 !in live
    }

    constructor (live: set<int>, driver: nat -> int, debug: bool)
      requires 0 !in live
      ensures Valid() && handles == [] && this.live == live && generated == 0
      ensures this.driver == driver && this.debug == debug
    {
      handles := [];
      this.live := live;
      this.driver := driver;
      generated := 0;
      this.debug := debug;
    }

    /** The name newTextureHandle gives from the state it starts in. */
    ghost function NextName(): int
      reads this
    {
      var (found, _) := PopValid(handles, live);
      if found.Some? then found.value else driver(generated)
    }

    method NewTextureHandle() returns (h: int)
      modifies this`handles, this`generated
      ensures var (found, rest) := PopValid(old(handles), live);
        h == (if found.Some? then found.value else driver(old(generated)))
        && handles == rest && generated == old(generated) + (if found.Some? then 0 else 1)
    {
      while |handles| > 0
        invariant PopValid(handles, live) == PopValid(old(handles), live)
        invariant generated == old(generated)
        decreases |handles|
      {
        var top := handles[|handles| - 1];
        handles := handles[..|handles| - 1];
        if top in live {
          return top;
        }
      }
      h := driver(generated);
      generated := generated + 1;
    }

    /** glDeleteTextures, then back into the pool. */
    method ReleaseTextureHandle(handle: int)
      requires Valid()
      modifies this`handles, this`live
      ensures Valid()
      ensures handles == old(handles) + [handle] && live == old(live) - {handle}
    {
      live := live - {handle};
      handles := handles + [handle];
    }

    /** releaseTextureHandles / destroy: delete every pooled name and empty the pool. */
    method Destroy()
      requires Valid()
      modifies this`handles, this`live
      ensures Valid()
      ensures handles == [] && live == old(live) - Names(old(handles))
    {
      var i := 0;
      while i < |handles|
        invariant 0 <= i <= |handles| && handles == old(handles)
        invariant live == old(live) - Names(handles[..i])
      {
        live := live - {handles[i]};
        assert Names(handles[..i + 1]) == Names(handles[..i]) + {handles[i]} by {
          assert handles[..i + 1] == handles[..i] + [handles[i]];
        }
        i := i + 1;
      }
      assert handles[..i] == handles;
      handles := [];
    }

    /** loadTexture: take a name, bind it (which makes it a texture) and upload.
        A zero name is an error: thrown in debug builds, returned anyway otherwise. */
    method LoadTexture() returns (h: int, thrown: bool)
      requires Valid()
      modifies this`handles, this`live, this`generated
      ensures Valid()
      ensures h == old(NextName())
      ensures var (found, rest) := PopValid(old(handles), old(live));
        handles == rest && generated == old(generated) + (if found.Some? then 0 else 1)
      ensures live == if h != 0 then old(live) + {h} else old(live)
      ensures thrown == (debug && h == 0)
    {
      h := NewTextureHandle();
      if h != 0 {
        live := live + {h};
      }
      thrown := false;
      if h == 0 && debug {
        thrown := true;
      } else if h !in live && debug {
        thrown := true;
      }
    }
  }
}
