/** The `VkInitializer` record builders: each fills a fresh, zero-initialised
    Vulkan info record from its arguments and returns it. They have no loops
    and no shared state, so they are functions. Pointers to other records
    are modelled by the record they point at (`Ptr<T>`). */
module VkInitializer {
  import opened VkTypes

  /** `VK_REMAINING_MIP_LEVELS` and `VK_REMAINING_ARRAY_LAYERS` are both `~0U`. */
  const REMAINING: u32 := 0xFFFF_FFFF

  /** Flag bits the engine passes to these builders (values from the Vulkan headers). */
  const FENCE_CREATE_SIGNALED_BIT: bv32 := 0x1
  const COMMAND_BUFFER_USAGE_ONE_TIME_SUBMIT_BIT: bv32 := 0x1
  const COMMAND_POOL_CREATE_RESET_COMMAND_BUFFER_BIT: bv32 := 0x2
  const IMAGE_ASPECT_COLOR_BIT: bv32 := 0x1
  const PIPELINE_STAGE_2_COLOR_ATTACHMENT_OUTPUT_BIT: bv64 := 0x400

  datatype CommandBufferLevel = Primary | Secondary

  datatype CommandPoolCreateInfo = CommandPoolCreateInfo(
    sType: StructureType, pNext: Ptr<Handle>, flags: bv32, queueFamilyIndex: u32)

  datatype CommandBufferAllocateInfo = CommandBufferAllocateInfo(
    sType: StructureType, pNext: Ptr<Handle>, commandPool: Handle,
    level: CommandBufferLevel, commandBufferCount: u32)

  datatype SemaphoreCreateInfo = SemaphoreCreateInfo(
    sType: StructureType, pNext: Ptr<Handle>, flags: bv32)

  datatype FenceCreateInfo = FenceCreateInfo(
    sType: StructureType, pNext: Ptr<Handle>, flags: bv32)

  datatype CommandBufferBeginInfo = CommandBufferBeginInfo(
    sType: StructureType, pNext: Ptr<Handle>, flags: bv32, pInheritanceInfo: Ptr<Handle>)

  datatype CommandBufferSubmitInfo = CommandBufferSubmitInfo(
    sType: StructureType, pNext: Ptr<Handle>, commandBuffer: Handle, deviceMask: u32)

  datatype SemaphoreSubmitInfo = SemaphoreSubmitInfo(
    sType: StructureType, pNext: Ptr<Handle>, semaphore: Handle, value: nat,
    stageMask: bv64, deviceIndex: u32)

  datatype SubmitInfo2 = SubmitInfo2(
    sType: StructureType, pNext: Ptr<Handle>, flags: bv32,
    waitSemaphoreInfoCount: u32, pWaitSemaphoreInfos: Ptr<SemaphoreSubmitInfo>,
    commandBufferInfoCount: u32, pCommandBufferInfos: Ptr<CommandBufferSubmitInfo>,
    signalSemaphoreInfoCount: u32, pSignalSemaphoreInfos: Ptr<SemaphoreSubmitInfo>)

  datatype ImageSubresourceRange = ImageSubresourceRange(
    aspectMask: bv32, baseMipLevel: u32, levelCount: u32, baseArrayLayer: u32, layerCount: u32)

  /** `createCommandPoolInfo`: the `int` queue family index is stored in a
      `uint32_t` field, a conversion modulo 2^32. */
  function CreateCommandPoolInfo(queueFamilyIndex: int, f: bv32): (info: CommandPoolCreateInfo)
    ensures info.sType == CommandPoolCreateInfoType && info.pNext == Null
    ensures info.flags == f
    ensures 0 <= queueFamilyIndex < U32_LIMIT ==> info.queueFamilyIndex == queueFamilyIndex
  {
    CommandPoolCreateInfo(CommandPoolCreateInfoType, Null, f, queueFamilyIndex % U32_LIMIT)
  }

  /** `createCommandBufferInfo`: one primary command buffer from `pool`. */
  function CreateCommandBufferInfo(pool: Handle): (info: CommandBufferAllocateInfo)
    ensures info.sType == CommandBufferAllocateInfoType && info.pNext == Null
    ensures info.commandPool == pool
    ensures info.level == Primary && info.commandBufferCount == 1
  {
    CommandBufferAllocateInfo(CommandBufferAllocateInfoType, Null, pool, Primary, 1)
  }

  /** `createSemaphoreInfo`. */
  function CreateSemaphoreInfo(f: bv32): (info: SemaphoreCreateInfo)
    ensures info.sType == SemaphoreCreateInfoType && info.pNext == Null && info.flags == f
  {
    SemaphoreCreateInfo(SemaphoreCreateInfoType, Null, f)
  }

  /** `createFenceInfo`. */
  function CreateFenceInfo(f: bv32): (info: FenceCreateInfo)
    ensures info.sType == FenceCreateInfoType && info.pNext == Null && info.flags == f
  {
    FenceCreateInfo(FenceCreateInfoType, Null, f)
  }

  /** A fence created from `info` starts in the signalled state. */
  predicate CreatedSignalled(info: FenceCreateInfo) {
    info.flags & FENCE_CREATE_SIGNALED_BIT != 0
  }

  /** `createCommandBufferBeginInfo`: no inheritance info (value-initialised). */
  function CreateCommandBufferBeginInfo(f: bv32): (info: CommandBufferBeginInfo)
    ensures info.sType == CommandBufferBeginInfoType && info.pNext == Null
    ensures info.flags == f && info.pInheritanceInfo == Null
  {
    CommandBufferBeginInfo(CommandBufferBeginInfoType, Null, f, Null)
  }

  /** `createSubmitInfo`: one command buffer info; a signal or wait semaphore
      info is counted exactly when its pointer is non-null. */
  function CreateSubmitInfo(commandBufferInfo: Ptr<CommandBufferSubmitInfo>,
                            signalSemaphoreInfo: Ptr<SemaphoreSubmitInfo>,
                            waitSemaphoreInfo: Ptr<SemaphoreSubmitInfo>): (info: SubmitInfo2)
    ensures info.sType == SubmitInfo2Type && info.pNext == Null && info.flags == 0
    ensures info.commandBufferInfoCount == 1 && info.pCommandBufferInfos == commandBufferInfo
    ensures info.signalSemaphoreInfoCount == (if signalSemaphoreInfo.Null? then 0 else 1)
    ensures info.pSignalSemaphoreInfos == signalSemaphoreInfo
    ensures info.waitSemaphoreInfoCount == (if waitSemaphoreInfo.Null? then 0 else 1)
    ensures info.pWaitSemaphoreInfos == waitSemaphoreInfo
  {
    SubmitInfo2(SubmitInfo2Type, Null, 0,
                if waitSemaphoreInfo.Null? then 0 else 1, waitSemaphoreInfo,
                1, commandBufferInfo,
                if signalSemaphoreInfo.Null? then 0 else 1, signalSemaphoreInfo)
  }

  /** The semaphore counts of a submit record agree with the arrays it points
      at; the command-buffer count does exactly when a command-buffer info is
      given (a null one is still counted as 1). */
  lemma SubmitCountsMatchPointers(commandBufferInfo: Ptr<CommandBufferSubmitInfo>,
                                  signalSemaphoreInfo: Ptr<SemaphoreSubmitInfo>,
                                  waitSemaphoreInfo: Ptr<SemaphoreSubmitInfo>)
    ensures var info := CreateSubmitInfo(commandBufferInfo, signalSemaphoreInfo, waitSemaphoreInfo);
      && info.signalSemaphoreInfoCount == PointeeCount(info.pSignalSemaphoreInfos)
      && info.waitSemaphoreInfoCount == PointeeCount(info.pWaitSemaphoreInfos)
      && (info.commandBufferInfoCount == PointeeCount(info.pCommandBufferInfos) <==> commandBufferInfo.Ref?)
  {
  }

  /** `createCommandBufferSubmitInfo`. */
  function CreateCommandBufferSubmitInfo(commandBuffer: Handle): (info: CommandBufferSubmitInfo)
    ensures info.sType == CommandBufferSubmitInfoType && info.pNext == Null
    ensures info.commandBuffer == commandBuffer && info.deviceMask == 0
  {
    CommandBufferSubmitInfo(CommandBufferSubmitInfoType, Null, commandBuffer, 0)
  }

  /** `createSemaphoreSubmitInfo`: a binary semaphore (`value` 0) on device 0. */
  function CreateSemaphoreSubmitInfo(semaphore: Handle, stageFlags: bv64): (info: SemaphoreSubmitInfo)
    ensures info.sType == SemaphoreSubmitInfoType && info.pNext == Null
    ensures info.semaphore == semaphore && info.stageMask == stageFlags
    ensures info.value == 0 && info.deviceIndex == 0
  {
    SemaphoreSubmitInfo(SemaphoreSubmitInfoType, Null, semaphore, 0, stageFlags, 0)
  }

  /** `imageSubresourceRange`: from mip 0 and layer 0, all remaining levels and layers. */
  function ImageSubresourceRangeFor(aspectMask: bv32): (range: ImageSubresourceRange)
    ensures range.aspectMask == aspectMask
    ensures range.baseMipLevel == 0 && range.baseArrayLayer == 0
    ensures range.levelCount == REMAINING && range.layerCount == REMAINING
  {
    ImageSubresourceRange(aspectMask, 0, REMAINING, 0, REMAINING)
  }

  /** Vulkan's reading of a subresource range: a count of `REMAINING` reaches
      to the last level (layer) of the image. */
  predicate Covers(range: ImageSubresourceRange, mipLevel: nat, arrayLayer: nat) {
    && range.baseMipLevel <= mipLevel
    && (range.levelCount == REMAINING || mipLevel < range.baseMipLevel + range.levelCount)
    && range.baseArrayLayer <= arrayLayer
    && (range.layerCount == REMAINING || arrayLayer < range.baseArrayLayer + range.layerCount)
  }

  /** The range built by `imageSubresourceRange` covers every mip level and
      every array layer of the image, whatever their number. */
  lemma WholeImageRange(aspectMask: bv32, mipLevel: nat, arrayLayer: nat)
    ensures Covers(ImageSubresourceRangeFor(aspectMask), mipLevel, arrayLayer)
  {
  }
}
