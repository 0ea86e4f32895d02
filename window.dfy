/**
 * `window.rs`: the render thread's per-key caches of pipelines, bind groups and uniform
 * buffers, which `redraw` fills lazily from the playback's artifacts before it draws them.
 */
module Window {
  import opened Wrappers
  import opened Gpu
  import opened Artifacts
  import Panics

  /** A render pipeline, known by the topology of the artifact kind it was made for. */
  datatype Pipeline = Pipeline(topology: Topology)

  /** An artifact's uniform buffer, holding the colour of the kind it was made for (known by its topology). */
  datatype Uniform = Uniform(kind: Topology)

  /** The artifact bind group, which binds one uniform buffer whole. */
  datatype BindGroup = BindGroup(uniform: Uniform)

  /** The three per-key caches of `WindowState`. */
  datatype Caches = Caches(pipeline: map<string, Pipeline>, bindGroup: map<string, BindGroup>, uniformBuffer: map<string, Uniform>)

  /** The caches hold entries for the same keys. */
  predicate Aligned(c: Caches)
  {
    c.pipeline.Keys == c.bindGroup.Keys && c.pipeline.Keys == c.uniformBuffer.Keys
  }

  /** Every artifact key has an entry in all three caches. */
  predicate Covers(c: Caches, artifact: map<string, Artifact>)
  {
    artifact.Keys <= c.pipeline.Keys && artifact.Keys <= c.bindGroup.Keys && artifact.Keys <= c.uniformBuffer.Keys
  }

  /** What `create_pipeline` and `create_uniform_buffer` make for an artifact, by kind. */
  function PipelineFor(a: Artifact): (p: Pipeline)
  {
    Pipeline(a.Topology())
  }

  function UniformFor(a: Artifact): (u: Uniform)
  {
    Uniform(a.Topology())
  }

  /** One turn of the fill loop: a key without a pipeline gets all three entries, a key with one is left alone. */
  function Insert(c: Caches, key: string, a: Artifact): (r: Caches)
  {
    if key in c.pipeline then c
    else Caches(c.pipeline[key := PipelineFor(a)], c.bindGroup[key := BindGroup(UniformFor(a))],
                c.uniformBuffer[key := UniformFor(a)])
  }

  /**
   * One cache after the fill loop has visited the keys `keys`: each of them outside `have`
   * (the keys that had a pipeline at the start) gets the entry `make` holds for it.
   */
  function Made<V>(m: map<string, V>, have: set<string>, keys: set<string>, make: map<string, V>): (r: map<string, V>)
    requires keys <= make.Keys
  {
    m + map k | k in keys - have :: make[k]
  }

  lemma MadeStep<V>(m: map<string, V>, have: set<string>, done: set<string>, key: string, make: map<string, V>)
    requires done <= make.Keys && key in make && key !in done
    ensures Made(m, have, done + {key}, make)
      == if key in have then Made(m, have, done, make) else Made(m, have, done, make)[key := make[key]]
  {
  }

  lemma MadeNothing<V>(m: map<string, V>, have: set<string>, keys: set<string>, make: map<string, V>)
    requires keys <= make.Keys && keys <= have
    ensures Made(m, have, keys, make) == m
  {
    assert keys - have == {};
  }

  /** The entries `create_pipeline` and `create_uniform_buffer` make for each artifact. */
  function Pipelines(artifact: map<string, Artifact>): (m: map<string, Pipeline>)
  {
    map k | k in artifact :: PipelineFor(artifact[k])
  }

  function BindGroups(artifact: map<string, Artifact>): (m: map<string, BindGroup>)
  {
    map k | k in artifact :: BindGroup(UniformFor(artifact[k]))
  }

  function Uniforms(artifact: map<string, Artifact>): (m: map<string, Uniform>)
  {
    map k | k in artifact :: UniformFor(artifact[k])
  }

  /**
   * The fill loop after it has visited the artifact keys `keys`: each of them that had no
   * pipeline at the start now has the three entries made for its artifact.
   */
  function FillKeys(c: Caches, artifact: map<string, Artifact>, keys: set<string>): (r: Caches)
    requires keys <= artifact.Keys
  {
    var have := c.pipeline.Keys;
    Caches(Made(c.pipeline, have, keys, Pipelines(artifact)),
           Made(c.bindGroup, have, keys, BindGroups(artifact)),
           Made(c.uniformBuffer, have, keys, Uniforms(artifact)))
  }

  lemma FillKeysAligned(c: Caches, artifact: map<string, Artifact>, keys: set<string>)
    requires keys <= artifact.Keys && Aligned(c)
    ensures Aligned(FillKeys(c, artifact, keys))
  {
  }

  /**
   * The whole fill loop. It keeps the caches aligned, leaves them covering every artifact key,
   * rebuilds nothing a key already had a pipeline for, and removes nothing.
   */
  function Fill(c: Caches, artifact: map<string, Artifact>): (r: Caches)
    requires Aligned(c)
    ensures Aligned(r) && Covers(r, artifact)
    ensures r.pipeline.Keys == c.pipeline.Keys + artifact.Keys
    ensures forall k :: k in c.pipeline ==>
      r.pipeline[k] == c.pipeline[k] && r.bindGroup[k] == c.bindGroup[k] && r.uniformBuffer[k] == c.uniformBuffer[k]
    ensures forall k :: k in artifact && k !in c.pipeline ==>
      r.pipeline[k] == PipelineFor(artifact[k]) && r.uniformBuffer[k] == UniformFor(artifact[k])
      && r.bindGroup[k] == BindGroup(r.uniformBuffer[k])
  {
    FillKeysAligned(c, artifact, artifact.Keys);
    FillKeys(c, artifact, artifact.Keys)
  }

  /** A second fill over the same artifacts changes nothing. */
  lemma FillIdempotent(c: Caches, artifact: map<string, Artifact>)
    requires Aligned(c)
    ensures Fill(Fill(c, artifact), artifact) == Fill(c, artifact)
  {
    FillKeysCovered(Fill(c, artifact), artifact, artifact.Keys);
  }

  /** A cache filled from nothing holds, for each key, what its artifact's kind calls for. */
  lemma FillFromEmptyMatchesKinds(artifact: map<string, Artifact>)
    ensures var r := Fill(Caches(map[], map[], map[]), artifact);
      r.pipeline.Keys == artifact.Keys
      && forall k :: k in artifact ==>
        r.pipeline[k].topology == artifact[k].Topology() && r.bindGroup[k].uniform.kind == artifact[k].Topology()
  {
    var r := Fill(Caches(map[], map[], map[]), artifact);
    assert r.pipeline.Keys == artifact.Keys;
  }

  /** Keys that already had a pipeline get nothing new: in particular, before the loop has visited a key nothing is filled. */
  lemma FillKeysCovered(c: Caches, artifact: map<string, Artifact>, keys: set<string>)
    requires keys <= artifact.Keys && keys <= c.pipeline.Keys
    ensures FillKeys(c, artifact, keys) == c
  {
    var have := c.pipeline.Keys;
    MadeNothing(c.pipeline, have, keys, Pipelines(artifact));
    MadeNothing(c.bindGroup, have, keys, BindGroups(artifact));
    MadeNothing(c.uniformBuffer, have, keys, Uniforms(artifact));
  }

  /** Visiting one more key is one more turn of the loop. */
  lemma FillKeysStep(c: Caches, artifact: map<string, Artifact>, done: set<string>, key: string)
    requires done <= artifact.Keys && key in artifact && key !in done
    ensures FillKeys(c, artifact, done + {key}) == Insert(FillKeys(c, artifact, done), key, artifact[key])
  {
    var have := c.pipeline.Keys;
    MadeStep(c.pipeline, have, done, key, Pipelines(artifact));
    MadeStep(c.bindGroup, have, done, key, BindGroups(artifact));
    MadeStep(c.uniformBuffer, have, done, key, Uniforms(artifact));
    assert key in FillKeys(c, artifact, done).pipeline <==> key in have;
  }

  /** What the render pass records for one artifact: the pipeline and bind group set, and the draw. */
  datatype Drawn = Drawn(pipeline: Pipeline, bindGroup: BindGroup, call: DrawCall)

  /** The draws for the artifact keys `keys`, each with its cached pipeline and bind group. */
  function DrawsOf(c: Caches, artifact: map<string, Artifact>, keys: set<string>): (d: map<string, Drawn>)
    requires keys <= artifact.Keys && keys <= c.pipeline.Keys && keys <= c.bindGroup.Keys
  {
    map k | k in keys :: Drawn(c.pipeline[k], c.bindGroup[k], artifact[k].Render())
  }

  lemma DrawsOfStep(c: Caches, artifact: map<string, Artifact>, done: set<string>, key: string)
    requires done <= artifact.Keys && done <= c.pipeline.Keys && done <= c.bindGroup.Keys
    requires key in artifact && key in c.pipeline && key in c.bindGroup
    ensures DrawsOf(c, artifact, done + {key})
      == DrawsOf(c, artifact, done)[key := Drawn(c.pipeline[key], c.bindGroup[key], artifact[key].Render())]
  {
  }

  /** How a `redraw` ends. */
  datatype Frame =
    | NotReady                      // DEVICE not yet set: return before anything else
    | SurfaceLost                   // `get_current_texture` failed
    | Panicked(reason: Panics.Reason)
    | Presented(draws: map<string, Drawn>)

  /**
   * `redraw`, on the caches, the playback's artifacts, whether DEVICE and QUEUE are set and
   * whether the surface yields a texture: the caches it leaves and how it ends.
   */
  function Redrawn(c: Caches, artifact: map<string, Artifact>, gpu: GpuState, surfaceOk: bool): (r: (Caches, Frame))
    requires Aligned(c)
    ensures !gpu.device ==> r == (c, NotReady)
    ensures gpu.device ==> r.0 == Fill(c, artifact)
    ensures r.1.Presented? <==> gpu.device && surfaceOk && gpu.queue
    ensures gpu.device && surfaceOk && !gpu.queue ==> r.1 == Panicked(Panics.QueueNotSet)
    ensures r.1.Presented? ==> r.1.draws.Keys == artifact.Keys
    ensures r.1.Presented? ==> forall k :: k in artifact ==>
      r.1.draws[k] == Drawn(r.0.pipeline[k], r.0.bindGroup[k], artifact[k].Render())
  {
    if !gpu.device then (c, NotReady)
    else
      var filled := Fill(c, artifact);
      if !surfaceOk then (filled, SurfaceLost)
      else if !gpu.queue then (filled, Panicked(Panics.QueueNotSet))
      else (filled, Presented(DrawsOf(filled, artifact, artifact.Keys)))
  }

  /** A later `redraw` over the same artifacts draws with the entries the earlier one cached. */
  lemma RedrawReusesCaches(c: Caches, artifact: map<string, Artifact>, gpu: GpuState, surfaceOk: bool)
    requires Aligned(c) && gpu.device
    ensures var once := Redrawn(c, artifact, gpu, surfaceOk).0;
      Redrawn(once, artifact, gpu, surfaceOk).0 == once
  {
    FillIdempotent(c, artifact);
  }

  /** The render thread's `WindowState`, reduced to its three caches. */
  class WindowState {
    var pipeline: map<string, Pipeline>
    var bindGroup: map<string, BindGroup>
    var uniformBuffer: map<string, Uniform>

    function Value(): (c: Caches)
      reads this
    {
      Caches(pipeline, bindGroup, uniformBuffer)
    }

    /** The caches are only ever inserted into together, so they keep the same keys. */
    ghost predicate Valid()
      reads this
    {
      Aligned(Value())
    }

    /** `WindowState::new`: the three caches start empty. */
    constructor ()
      ensures Valid() && Value() == Caches(map[], map[], map[])
    {
      pipeline, bindGroup, uniformBuffer := map[], map[], map[];
    }

    /** `redraw`: fill the caches for every artifact key, then draw each artifact with its entries. */
    method Redraw(artifact: map<string, Artifact>, gpu: GpuState, surfaceOk: bool) returns (frame: Frame)
      requires Valid()
      modifies this
      ensures Valid()
      ensures (Value(), frame) == Redrawn(old(Value()), artifact, gpu, surfaceOk)
    {
      if !gpu.device {
        return NotReady;
      }
      FillCaches(artifact);
      if !surfaceOk {
        return SurfaceLost;
      }
      var draws := DrawAll(artifact);
      if !gpu.queue {
        return Panicked(Panics.QueueNotSet);
      }
      frame := Presented(draws);
    }

    /** The fill loop of `redraw` (`window.rs` lines 221-238). */
    method FillCaches(artifact: map<string, Artifact>)
      modifies this
      ensures Value() == FillKeys(old(Value()), artifact, artifact.Keys)
    {
      ghost var c0 := Value();
      ghost var done: set<string> := {};
      FillKeysCovered(c0, artifact, {});
      var todo := artifact.Keys;
      while todo != {}
        invariant todo <= artifact.Keys && done == artifact.Keys - todo
        invariant Value() == FillKeys(c0, artifact, done)
        decreases todo
      {
        var key :| key in todo;
        FillKeysStep(c0, artifact, done, key);
        Visit(key, artifact[key]);
        todo, done := todo - {key}, done + {key};
      }
      assert done == artifact.Keys;
    }

    /** One turn of the fill loop: a key without a pipeline gets a pipeline, a uniform buffer and a bind group on it. */
    method Visit(key: string, a: Artifact)
      modifies this
      ensures Value() == Insert(old(Value()), key, a)
    {
      if key !in pipeline {
        var uniform := UniformFor(a);
        pipeline := pipeline[key := PipelineFor(a)];
        bindGroup := bindGroup[key := BindGroup(uniform)];
        uniformBuffer := uniformBuffer[key := uniform];
      }
    }

    /** The draw loop of `redraw`: each artifact with the pipeline and bind group cached for its key. */
    method DrawAll(artifact: map<string, Artifact>) returns (draws: map<string, Drawn>)
      requires Covers(Value(), artifact)
      ensures draws == DrawsOf(Value(), artifact, artifact.Keys)
    {
      draws := map[];
      var left := artifact.Keys;
      while left != {}
        invariant left <= artifact.Keys
        invariant draws == DrawsOf(Value(), artifact, artifact.Keys - left)
        decreases left
      {
        var key :| key in left;
        DrawsOfStep(Value(), artifact, artifact.Keys - left, key);
        draws := draws[key := Drawn(pipeline[key], bindGroup[key], artifact[key].Render())];
        assert artifact.Keys - (left - {key}) == (artifact.Keys - left) + {key};
        left := left - {key};
      }
      assert artifact.Keys - left == artifact.Keys;
    }
  }
}
