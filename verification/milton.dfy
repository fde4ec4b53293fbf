/**
  The `Milton` class: an ordered list of registered replacers, `add` and
  `use` to extend it, and `stringify` to render a value through it. Each
  `stringify` call instantiates its replacers afresh, so it starts from the
  empty per-call state.
 */
module Milton {
  import opened Wrappers
  import opened Values
  import opened Failures
  import opened Stages
  import opened Engine

  datatype Milton = Milton(replacers: seq<Plugin>)

  /** `new Milton()`. */
  const Fresh: Milton := Milton([])

  /** `add(plugin, options)`: registers one replacer after all earlier ones. */
  function Add(m: Milton, p: Plugin): (r: Milton)
    ensures |r.replacers| == |m.replacers| + 1
    ensures r.replacers[..|m.replacers|] == m.replacers
    ensures r.replacers[|m.replacers|] == p
  {
    Milton(m.replacers + [p])
  }

  /** `use(preset)`: a preset registers its replacers, in its order, after all earlier ones. */
  function Use(m: Milton, preset: seq<Plugin>): (r: Milton)
    ensures |r.replacers| == |m.replacers| + |preset|
    ensures r.replacers[..|m.replacers|] == m.replacers
    ensures r.replacers[|m.replacers|..] == preset
  {
    Milton(m.replacers + preset)
  }

  /** A preset is a sequence of `add` calls. */
  lemma {:induction false} UseIsAdds(m: Milton, preset: seq<Plugin>)
    ensures |preset| > 0 ==> Use(m, preset) == Use(Add(m, preset[0]), preset[1..])
    ensures Use(m, []) == m
  {
    if |preset| > 0 {
      assert m.replacers + preset == (m.replacers + [preset[0]]) + preset[1..];
    }
    assert m.replacers + [] == m.replacers;
  }

  /**
    `stringify(value)` with `fuel` nested renders available: `PC LOAD LETTER`
    without replacers, otherwise the fold of all replacers over the value at
    the empty path.
   */
  function Stringify(m: Milton, h: Heap, v: Value, fuel: nat): (r: Result<Value, Error>)
    ensures |m.replacers| == 0 <==> r == Failure(NoReplacers)
    ensures r.Success? && IsObject(r.value) ==> r.value == v
    ensures Guarded(Config(m.replacers, h)) ==> NoCycle(r)
  {
    if |m.replacers| < 1 then Failure(NoReplacers)
    else
      var o :- Render(Config(m.replacers, h), v, [], map[], fuel);
      Success(o.value)
  }

  /** Registering `reference` first rules out the decenders' circular-structure error for every value. */
  lemma ReferenceFirstNeverCircular(rest: seq<Plugin>, h: Heap, v: Value, fuel: nat)
    ensures NoCycle(Stringify(Use(Add(Fresh, Reference), rest), h, v, fuel))
  {
    assert Guarded(Config(Use(Add(Fresh, Reference), rest).replacers, h));
  }

  /** The message of the error `stringify` throws without replacers. */
  lemma EmptyMessage(h: Heap, v: Value, fuel: nat)
    ensures Stringify(Fresh, h, v, fuel).Failure?
    ensures Message(Stringify(Fresh, h, v, fuel).error) == "PC LOAD LETTER"
  {
  }
}
