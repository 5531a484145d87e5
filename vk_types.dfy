/** Vocabulary shared by the engine modules: fixed-width integers, opaque
    Vulkan handles, nullable pointers and the structure-type tags that every
    Vulkan info record carries. */
module VkTypes {

  /** 2^32: one past the largest `uint32_t`. */
  const U32_LIMIT: int := 0x1_0000_0000

  /** A `uint32_t` (also the engine's `uint`). */
  type u32 = x: int | 0 <= x < 0x1_0000_0000

  /** A conversion to `uint32_t`: reduction modulo 2^32. */
  function Narrow(x: int): (r: u32)
    ensures 0 <= x < U32_LIMIT ==> r == x
  {
    x % 0x1_0000_0000
  }

  /** Narrowing commutes with counting up by one: `y` is `x + 1`. */
  lemma NarrowStep(x: nat, y: nat)
    requires y == x + 1
    ensures Narrow(Narrow(x) + 1) == Narrow(y)
  {
  }

  /** Adding an even number keeps the parity. */
  lemma EvenShift(m: int, r: int)
    ensures (2 * m + r) % 2 == r % 2
  {
  }

  /** Narrowing to 32 bits keeps the parity, as 2^32 is even. */
  lemma NarrowParity(x: nat)
    ensures Narrow(x) % 2 == x % 2
  {
    var q := x / U32_LIMIT;
    var r := x % U32_LIMIT;
    assert x == U32_LIMIT * q + r;
    assert U32_LIMIT * q == 2 * (0x8000_0000 * q);
    EvenShift(0x8000_0000 * q, r);
  }

  /** An opaque Vulkan handle: pool, command buffer, fence, semaphore, image.
      `VK_NULL_HANDLE` is 0; every handle the model creates is positive. */
  type Handle = nat

  const NullHandle: Handle := 0

  datatype Option<T> = None | Some(value: T)

  /** A C pointer that is either null or points at a value. */
  datatype Ptr<T> = Null | Ref(target: T)

  /** Number of records a pointer designates when it is paired with a count. */
  function PointeeCount<T>(p: Ptr<T>): (n: nat)
    ensures n <= 1
    ensures n == 0 <==> p == Null
  {
    if p.Null? then 0 else 1
  }

  /** The `sType` tags of the records the engine fills in. */
  datatype StructureType =
    | CommandPoolCreateInfoType
    | CommandBufferAllocateInfoType
    | SemaphoreCreateInfoType
    | FenceCreateInfoType
    | CommandBufferBeginInfoType
    | SubmitInfo2Type
    | CommandBufferSubmitInfoType
    | SemaphoreSubmitInfoType
    | DescriptorPoolCreateInfoType
    | DescriptorSetAllocateInfoType
    | DescriptorSetLayoutCreateInfoType
}
