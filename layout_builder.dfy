/** `DescriptorSetLayoutBuilder`: a vector of layout bindings that
    `addBinding` appends to, `clear` empties, and `build` ORs a stage mask
    into, in place, before handing the bindings to
    `vkCreateDescriptorSetLayout`. */
module DescriptorLayout {
  import opened VkTypes

  /** A `VkDescriptorType` enumerant. */
  type DescriptorType = u32

  /** `VkDescriptorSetLayoutBinding`. */
  datatype Binding = Binding(
    binding: u32,
    descriptorType: DescriptorType,
    descriptorCount: u32,
    stageFlags: bv32,
    pImmutableSamplers: Ptr<Handle>)

  /** `VkDescriptorSetLayoutCreateInfo` as `build` fills it in. */
  datatype LayoutCreateInfo = LayoutCreateInfo(
    sType: StructureType, pNext: Ptr<Handle>, flags: bv32,
    bindingCount: u32, pBindings: seq<Binding>)

  /** A binding with `stage` ORed into its stage flags. */
  function AddStage(b: Binding, stage: bv32): Binding {
    b.(stageFlags := b.stageFlags | stage)
  }

  /** The bindings after `build`'s loop has visited each of them. */
  function WithStage(bs: seq<Binding>, stage: bv32): (r: seq<Binding>)
    ensures |r| == |bs|
    ensures forall k :: 0 <= k < |bs| ==> r[k] == AddStage(bs[k], stage)
  {
    if bs == [] then [] else [AddStage(bs[0], stage)] + WithStage(bs[1..], stage)
  }

  /** `build` keeps the number, order, binding points, types, counts and
      samplers of the bindings; it changes stage flags only, and only by
      adding the bits of `stage`. */
  lemma BuildKeepsBindings(bs: seq<Binding>, stage: bv32, k: nat)
    requires k < |bs|
    ensures |WithStage(bs, stage)| == |bs|
    ensures var b, b' := bs[k], WithStage(bs, stage)[k];
      && b'.binding == b.binding && b'.descriptorType == b.descriptorType
      && b'.descriptorCount == b.descriptorCount && b'.pImmutableSamplers == b.pImmutableSamplers
      && b'.stageFlags & b.stageFlags == b.stageFlags
      && b'.stageFlags & stage == stage
      && b'.stageFlags == b.stageFlags | stage
  {
  }

  /** Building twice with the same stage leaves the bindings as one build did. */
  lemma BuildIdempotent(bs: seq<Binding>, stage: bv32)
    ensures WithStage(WithStage(bs, stage), stage) == WithStage(bs, stage)
  {
    var once := WithStage(bs, stage);
    var twice := WithStage(once, stage);
    assert |twice| == |once|;
    forall k | 0 <= k < |once|
      ensures twice[k] == once[k]
    {
      assert once[k].stageFlags | stage == (bs[k].stageFlags | stage) | stage;
    }
  }

  class DescriptorSetLayoutBuilder {
    /** `mBindings`. */
    var bindings: seq<Binding>

    constructor ()
      ensures bindings == []
    {
      bindings := [];
    }

    /** `addBinding`: appends one binding for `bindingPoint` with one
        descriptor of `descriptorType`, visible to `stage`, and no immutable
        samplers. */
    method AddBinding(bindingPoint: u32, descriptorType: DescriptorType, stage: bv32)
      modifies this
      ensures bindings == old(bindings) + [Binding(bindingPoint, descriptorType, 1, stage, Null)]
      ensures bindings[..|old(bindings)|] == old(bindings)
    {
      var binding := Binding(bindingPoint, descriptorType, 1, stage, Null);
      bindings := bindings + [binding];
    }

    /** `clear`. */
    method Clear()
      modifies this
      ensures bindings == []
    {
      bindings := [];
    }

    /** `build`: ORs `stage` into every binding's stage flags (the change stays
        in the builder) and returns the create-info handed to
        `vkCreateDescriptorSetLayout`, whose `bindingCount` is the vector's
        size stored in a `uint32_t`. */
    method Build(stage: bv32) returns (info: LayoutCreateInfo)
      modifies this
      ensures bindings == WithStage(old(bindings), stage)
      ensures info.sType == DescriptorSetLayoutCreateInfoType && info.pNext == Null && info.flags == 0
      ensures info.pBindings == bindings
      ensures info.bindingCount == |bindings| % U32_LIMIT
      ensures |bindings| < U32_LIMIT ==> info.bindingCount == |bindings|
    {
      var i := 0;
      while i < |bindings|
        invariant 0 <= i <= |bindings| == |old(bindings)|
        invariant bindings[..i] == WithStage(old(bindings)[..i], stage)
        invariant bindings[i..] == old(bindings)[i..]
      {
        bindings := bindings[i := AddStage(bindings[i], stage)];
        i := i + 1;
      }
      assert old(bindings)[..i] == old(bindings);
      info := LayoutCreateInfo(DescriptorSetLayoutCreateInfoType, Null, 0, |bindings| % U32_LIMIT, bindings);
    }
  }
}
