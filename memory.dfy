/** Memory-type selection (src/renderer/memory.rs).

    Follows the selection rule of the Device Memory chapter of the Vulkan specification:
    memory type i may back a resource when bit i of the resource's `memoryTypeBits` is set,
    and it is usable when its property flags include every requested property.
 */
module Memory {
  import opened Vk

  datatype MemoryProperty =
    | DEVICE_LOCAL
    | HOST_VISIBLE
    | HOST_COHERENT
    | HOST_CACHED
    | LAZILY_ALLOCATED
    | PROTECTED

  datatype MemoryType = MemoryType(propertyFlags: set<MemoryProperty>, heapIndex: nat)

  /** `VK_MAX_MEMORY_TYPES`: the fixed length of the `memoryTypes` array. */
  const MAX_MEMORY_TYPES: nat := 32

  /** What `vkGetPhysicalDeviceMemoryProperties` reports (heaps are not inspected). */
  datatype MemoryProperties = MemoryProperties(memoryTypeCount: nat, memoryTypes: seq<MemoryType>)
  {
    /** The shape the driver guarantees: a full array, of which the first count entries are used. */
    predicate WellFormed() {
      |memoryTypes| == MAX_MEMORY_TYPES && memoryTypeCount <= MAX_MEMORY_TYPES
    }
  }

  /** The part of `VkMemoryRequirements` that selection reads. */
  datatype MemoryRequirements = MemoryRequirements(size: nat, memoryTypeBits: bv32)

  datatype MemoryError = NoSuitableMemoryType

  /** Bit i of a 32-bit mask, tested as `mask & (1 << i) != 0`. */
  predicate BitSet(mask: bv32, i: nat)
    requires i < 32
  {
    mask & ((1 as bv32) << i) != 0
  }

  /** Memory type i is allowed by the requirements and has every requested property. */
  predicate Suitable(memory: MemoryProperties, properties: set<MemoryProperty>,
                     requirements: MemoryRequirements, i: nat)
    requires memory.WellFormed()
  {
    i < memory.memoryTypeCount
    && BitSet(requirements.memoryTypeBits, i)
    && properties <= memory.memoryTypes[i].propertyFlags
  }

  /** The range search `(from..memory_type_count).find(..)`: the first suitable index at or after `from`. */
  function FindFrom(memory: MemoryProperties, properties: set<MemoryProperty>,
                    requirements: MemoryRequirements, from: nat): (r: Option<nat>)
    requires memory.WellFormed()
    ensures r.Some? ==>
      from <= r.value < memory.memoryTypeCount
      && Suitable(memory, properties, requirements, r.value)
      && forall j :: from <= j < r.value ==> !Suitable(memory, properties, requirements, j)
    ensures r.None? ==>
      forall j :: from <= j < memory.memoryTypeCount ==> !Suitable(memory, properties, requirements, j)
    decreases memory.memoryTypeCount - from
  {
    if from >= memory.memoryTypeCount then None
    else if Suitable(memory, properties, requirements, from) then Some(from)
    else FindFrom(memory, properties, requirements, from + 1)
  }

  /** `get_memory_type_index`: the smallest suitable memory type index, or an error when
      no memory type in range is suitable. */
  function GetMemoryTypeIndex(memory: MemoryProperties, properties: set<MemoryProperty>,
                              requirements: MemoryRequirements): (r: Result<nat, MemoryError>)
    requires memory.WellFormed()
    ensures r.Ok? ==>
      r.value < memory.memoryTypeCount
      && BitSet(requirements.memoryTypeBits, r.value)
      && properties <= memory.memoryTypes[r.value].propertyFlags
      && forall j :: 0 <= j < r.value ==> !Suitable(memory, properties, requirements, j)
    ensures r.Err? <==>
      forall j :: 0 <= j < memory.memoryTypeCount ==> !Suitable(memory, properties, requirements, j)
  {
    match FindFrom(memory, properties, requirements, 0)
    case Some(i) => Ok(i)
    case None => Err(NoSuitableMemoryType)
  }

  /** Asking for more properties never selects an earlier memory type: the selected index
      is monotone in the requested property set. */
  lemma MoreRequestedPropertiesNeverSelectEarlier(memory: MemoryProperties,
                                                  weaker: set<MemoryProperty>,
                                                  stronger: set<MemoryProperty>,
                                                  requirements: MemoryRequirements)
    requires memory.WellFormed()
    requires weaker <= stronger
    ensures GetMemoryTypeIndex(memory, stronger, requirements).Ok? ==>
      GetMemoryTypeIndex(memory, weaker, requirements).Ok?
      && GetMemoryTypeIndex(memory, weaker, requirements).value
         <= GetMemoryTypeIndex(memory, stronger, requirements).value
  {
    var s := GetMemoryTypeIndex(memory, stronger, requirements);
    if s.Ok? {
      assert Suitable(memory, weaker, requirements, s.value);
    }
  }

  /** Any index that is suitable while every earlier one is not is the selected one:
      the selection is exactly "the first fit in ascending order". */
  lemma FirstFitIsSelected(memory: MemoryProperties, properties: set<MemoryProperty>,
                           requirements: MemoryRequirements, i: nat)
    requires memory.WellFormed()
    requires Suitable(memory, properties, requirements, i)
    requires forall j :: 0 <= j < i ==> !Suitable(memory, properties, requirements, j)
    ensures GetMemoryTypeIndex(memory, properties, requirements) == Ok(i)
  {
  }
}
