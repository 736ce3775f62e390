/**
 * Page blocks from the CMS turned into components: the tag chooses the
 * component, the metadata is stripped, the rest becomes its props.
 */
module RenderComponent {
  import opened Wrappers
  import opened JsValues

  const HERO_TAG := "block.hero"
  const COURSES_LISTING_INLINE_TAG := "block.courses-listing-inline"

  /** The fields that are not passed on as props. */
  const METADATA: set<string> := {"__component", "id", "createdAt", "updatedAt"}

  datatype ComponentKind = HeroArea | CoursesListingInline

  /** A component element: which component, its `key`, its props. */
  datatype Element = Element(kind: ComponentKind, key: Js, props: map<string, Js>)

  /** A property read on an object: undefined when the field is missing. */
  function Field(fields: map<string, Js>, k: string): (r: Js)
    ensures k in fields ==> r == fields[k]
    ensures k !in fields ==> r == Undefined
  {
    if k in fields then fields[k] else Undefined
  }

  /**
   * `renderComponent`: an element for the two known tags, keyed by the
   * block's id and given every field but the metadata; null for any other
   * tag.
   */
  function RenderComponent(block: map<string, Js>): (r: Option<Element>)
    ensures r.Some? <==> Field(block, "__component") in {Str(HERO_TAG), Str(COURSES_LISTING_INLINE_TAG)}
    ensures r.Some? ==> (r.value.kind == HeroArea <==> Field(block, "__component") == Str(HERO_TAG))
    ensures r.Some? ==> r.value.key == Field(block, "id")
    ensures r.Some? ==> forall k :: k in r.value.props <==> k in block && k !in METADATA
    ensures r.Some? ==> forall k :: k in r.value.props ==> r.value.props[k] == block[k]
  {
    var tag := Field(block, "__component");
    if tag == Str(HERO_TAG) || tag == Str(COURSES_LISTING_INLINE_TAG) then
      var kind := if tag == Str(HERO_TAG) then HeroArea else CoursesListingInline;
      Some(Element(kind, Field(block, "id"), block - METADATA))
    else None
  }

  /** The timestamps never reach the element. */
  lemma TimestampsIgnored(block: map<string, Js>, k: string, v: Js)
    requires k == "createdAt" || k == "updatedAt"
    ensures RenderComponent(block[k := v]) == RenderComponent(block)
  {
    assert block[k := v] - METADATA == block - METADATA;
  }

  /** The props with the metadata put back give the block again. */
  lemma PropsRestoreBlock(block: map<string, Js>)
    requires RenderComponent(block).Some?
    ensures RenderComponent(block).value.props + (map k | k in block && k in METADATA :: block[k]) == block
  {
  }

  /**
   * `renderComponents`: the loop that renders each block in turn; element i
   * is block i rendered (null included), so order and length are kept.
   */
  method RenderComponents(components: seq<map<string, Js>>) returns (renderedBlocks: seq<Option<Element>>)
    ensures |renderedBlocks| == |components|
    ensures forall i :: 0 <= i < |components| ==> renderedBlocks[i] == RenderComponent(components[i])
  {
    renderedBlocks := [];
    for i := 0 to |components|
      invariant |renderedBlocks| == i
      invariant forall j :: 0 <= j < i ==> renderedBlocks[j] == RenderComponent(components[j])
    {
      renderedBlocks := renderedBlocks + [RenderComponent(components[i])];
    }
  }
}
