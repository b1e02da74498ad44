/** The resize part of the API: quantities, bounds, validation and clamping
    (api/v1alpha1). A quantity is an exact number of thousandths. */
module ResizeApi {
  import opened Prelude

  type Quantity = int

  /** A resource name or metric; the two the controller knows have constructors of their own. */
  datatype ResourceName = CPU | MEMORY | Other(name: string)

  type ResourceList = map<ResourceName, Quantity>

  const DEFAULT_MIN_CHANGE_PERCENT := 10

  function NameText(r: ResourceName): string {
    match r
    case CPU => "cpu"
    case MEMORY => "memory"
    case Other(name) => name
  }

  /** An optional quantity string, after parsing: absent or empty, a number, or junk. */
  datatype QuantityText = Unset | Parsed(q: Quantity) | Malformed

  datatype ResourceBoundsSpec = ResourceBoundsSpec(
    min: QuantityText, max: QuantityText, minChangePercent: Option<int>)

  datatype ResizeSpec = ResizeSpec(
    containerName: Option<string>,
    minChangePercent: Option<int>,
    resources: map<ResourceName, ResourceBoundsSpec>)

  datatype ParsedBounds = ParsedBounds(min: Option<Quantity>, max: Option<Quantity>)

  function ParseOptionalQuantity(raw: QuantityText): Result<Option<Quantity>, string> {
    match raw
    case Unset => Ok(None)
    case Parsed(q) => Ok(Some(q))
    case Malformed => Err("unparsable quantity")
  }

  function ResourceBounds(bounds: ResourceBoundsSpec): Result<ParsedBounds, string> {
    var min := ParseOptionalQuantity(bounds.min);
    if min.Err? then Err("min: " + min.error) else
    var max := ParseOptionalQuantity(bounds.max);
    if max.Err? then Err("max: " + max.error) else
    Ok(ParsedBounds(min.value, max.value))
  }

  function ClampQuantity(q: Quantity, bounds: ResourceBoundsSpec): Quantity {
    var parsed := ResourceBounds(bounds);
    if parsed.Err? then q else
    var raised := if parsed.value.min.Some? && q < parsed.value.min.value then parsed.value.min.value else q;
    if parsed.value.max.Some? && raised > parsed.value.max.value then parsed.value.max.value else raised
  }

  predicate InBounds(q: Quantity, bounds: ResourceBoundsSpec) {
    && (bounds.min.Parsed? ==> bounds.min.q <= q)
    && (bounds.max.Parsed? ==> q <= bounds.max.q)
  }

  predicate ValidPercent(p: Option<int>) {
    p.Some? ==> 0 <= p.value <= 100
  }

  predicate ValidBounds(bounds: ResourceBoundsSpec) {
    && !bounds.min.Malformed?
    && !bounds.max.Malformed?
    && (bounds.min.Parsed? && bounds.max.Parsed? ==> bounds.min.q <= bounds.max.q)
    && ValidPercent(bounds.minChangePercent)
  }

  /** Clamping under accepted bounds: it lands inside, it moves a quantity exactly when that
      lies outside, and nothing inside the bounds is closer to the quantity. */
  lemma ClampIsProjection(q: Quantity, bounds: ResourceBoundsSpec)
    requires ValidBounds(bounds)
    ensures InBounds(ClampQuantity(q, bounds), bounds)
    ensures ClampQuantity(q, bounds) == q <==> InBounds(q, bounds)
    ensures forall x :: InBounds(x, bounds) ==> Abs(ClampQuantity(q, bounds) - q) <= Abs(x - q)
  {
  }

  /** The white space of unicode.IsSpace. */
  predicate IsSpace(c: char) {
    || c in " \t\n\r\U{0B}\U{0C}\U{85}\U{A0}\U{1680}\U{2028}\U{2029}\U{202F}\U{205F}\U{3000}"
    || '\U{2000}' <= c <= '\U{200A}'
  }

  lemma SpaceCodes(c: char)
    ensures IsSpace(c) <==>
      || c as int in {0x09, 0x0A, 0x0B, 0x0C, 0x0D, 0x20, 0x85, 0xA0, 0x1680, 0x2028, 0x2029, 0x202F, 0x205F, 0x3000}
      || 0x2000 <= c as int <= 0x200A
  {
  }

  /** strings.TrimSpace. */
  function TrimSpace(s: string): string {
    if s != "" && IsSpace(s[0]) then TrimSpace(s[1..])
    else if s != "" && IsSpace(s[|s| - 1]) then TrimSpace(s[..|s| - 1])
    else s
  }

  lemma {:induction false} BlankIsTrimmed(s: string)
    ensures Blank(s) <==> TrimSpace(s) == ""
    decreases |s|
  {
    if s != "" && IsSpace(s[0]) {
      BlankIsTrimmed(s[1..]);
      assert forall c :: c in s <==> c == s[0] || c in s[1..];
    } else if s != "" && IsSpace(s[|s| - 1]) {
      assert s[0] in s;
      BlankIsTrimmed(s[..|s| - 1]);
      assert forall c :: c in s <==> c == s[|s| - 1] || c in s[..|s| - 1];
    }
  }

  /** Nothing but white space. */
  predicate Blank(s: string) {
    forall c :: c in s ==> IsSpace(c)
  }

  predicate ValidResize(spec: ResizeSpec) {
    && !(spec.containerName.Some? && Blank(spec.containerName.value))
    && ValidPercent(spec.minChangePercent)
    && spec.resources != map[]
    && forall key :: key in spec.resources ==> key in {CPU, MEMORY} && ValidBounds(spec.resources[key])
  }

  function ValidateBounds(bounds: ResourceBoundsSpec): (r: Result<(), string>)
    ensures r.Ok? <==> ValidBounds(bounds)
  {
    var parsed := ResourceBounds(bounds);
    if parsed.Err? then Err(parsed.error)
    else if parsed.value.min.Some? && parsed.value.max.Some? && parsed.value.min.value > parsed.value.max.value then
      Err("min exceeds max")
    else if !ValidPercent(bounds.minChangePercent) then Err("minChangePercent must be between 0 and 100")
    else Ok(())
  }

  /** Walks the resource map in an arbitrary order, as Go does, and stops at the first error. */
  method ValidateResize(spec: ResizeSpec) returns (r: Result<(), string>)
    ensures r.Ok? <==> ValidResize(spec)
  {
    if spec.containerName.Some? {
      BlankIsTrimmed(spec.containerName.value);
    }
    if spec.containerName.Some? && TrimSpace(spec.containerName.value) == "" {
      return Err("resize.containerName must not be empty");
    }
    if !ValidPercent(spec.minChangePercent) {
      return Err("resize.minChangePercent must be between 0 and 100");
    }
    if spec.resources == map[] {
      return Err("resize.resources must contain at least one resource");
    }
    var keys := spec.resources.Keys;
    while keys != {}
      invariant keys <= spec.resources.Keys
      invariant forall key :: key in spec.resources && key !in keys ==>
        key in {CPU, MEMORY} && ValidBounds(spec.resources[key])
      decreases keys
    {
      var key :| key in keys;
      if key !in {CPU, MEMORY} {
        return Err("resize.resources: unsupported resource " + NameText(key));
      }
      var checked := ValidateBounds(spec.resources[key]);
      if checked.Err? {
        return Err("resize.resources." + NameText(key) + ": " + checked.error);
      }
      keys := keys - {key};
    }
    return Ok(());
  }

  /** The accepted specs, field by field. */
  lemma AcceptedSpecs(spec: ResizeSpec)
    ensures ValidResize(spec) <==>
      && (spec.containerName.Some? ==> exists c :: c in spec.containerName.value && !IsSpace(c))
      && (spec.minChangePercent.Some? ==> 0 <= spec.minChangePercent.value <= 100)
      && (exists key :: key in spec.resources)
      && forall key :: key in spec.resources ==>
           var b := spec.resources[key];
           && (key == CPU || key == MEMORY) && b.min != Malformed && b.max != Malformed
           && (b.min.Parsed? && b.max.Parsed? ==> b.min.q <= b.max.q)
           && (b.minChangePercent.Some? ==> 0 <= b.minChangePercent.value <= 100)
  {
    if spec.resources != map[] {
      var key :| key in spec.resources.Keys;
      assert key in spec.resources;
    }
  }

  function Controlled(resources: map<ResourceName, ResourceBoundsSpec>): set<ResourceName> {
    resources.Keys * {CPU, MEMORY}
  }

  method ControlledResourceSet(resources: map<ResourceName, ResourceBoundsSpec>) returns (out: set<ResourceName>)
    ensures out == Controlled(resources)
  {
    out := {};
    var keys := resources.Keys;
    while keys != {}
      invariant keys <= resources.Keys
      invariant out == (resources.Keys - keys) * {CPU, MEMORY}
      decreases keys
    {
      var key :| key in keys;
      if key == CPU {
        out := out + {CPU};
      } else if key == MEMORY {
        out := out + {MEMORY};
      }
      keys := keys - {key};
    }
  }

  function EffectiveMinChangePercent(global: Option<int>, perResource: Option<int>): int {
    if perResource.Some? then perResource.value
    else if global.Some? then global.value
    else DEFAULT_MIN_CHANGE_PERCENT
  }

  /** The threshold in force for one resource of a resize spec. */
  function ThresholdOf(spec: ResizeSpec, r: ResourceName): (thr: int)
    requires r in spec.resources
    ensures ValidResize(spec) ==> 0 <= thr <= 100
  {
    EffectiveMinChangePercent(spec.minChangePercent, spec.resources[r].minChangePercent)
  }

  function CurrentQuantity(list: ResourceList, name: ResourceName): Quantity {
    if name in list then list[name] else 0
  }

  /** Whose percentage is in force: the resource's own, else the spec's, else ten. */
  lemma ThresholdPrecedence(spec: ResizeSpec, r: ResourceName)
    requires r in spec.resources
    ensures var own := spec.resources[r].minChangePercent;
      && (own.Some? ==> ThresholdOf(spec, r) == own.value)
      && (own.None? && spec.minChangePercent.Some? ==> ThresholdOf(spec, r) == spec.minChangePercent.value)
      && (own.None? && spec.minChangePercent.None? ==> ThresholdOf(spec, r) == 10)
  {
  }
}
