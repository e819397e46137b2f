/** The image registry of an agent's conversation and the tools that extend it.
    Images are kept by their sizes; pixels are the business of the tools themselves. */
module ImageTools {
  import opened Wrappers
  import opened Sequences
  import opened Numbers
  import opened Decimal
  import Rotation

  datatype Image = Image(kind: string, width: int, height: int, decodes: bool)

  type Images = map<string, Image>

  datatype Region = Region(x: Option<real>, y: Option<real>, w: Option<real>, h: Option<real>)

  datatype Tool = Zoom(factor: Option<real>) | Crop(region: Option<Region>) | Rotate(degrees: Option<real>) | UnknownTool

  /** A tool call; an argument of the wrong type is missing. */
  datatype ToolCall = ToolCall(imageId: Option<string>, tool: Tool)

  datatype Result = Ok(id: string) | Error(message: string)

  // ----- numbers

  function MaxInt(a: int, b: int): int {
    if a > b then a else b
  }

  function Round(r: real): int {
    if r >= 0.0 then (r + 0.5).Floor else -((-r + 0.5).Floor)
  }

  // ----- sizes

  datatype Size = Size(w: int, h: int)

  /** A side in the proportion max : longest, but never nothing. */
  function Scaled(side: int, max: int, longest: int): int
    requires 0 < max < longest
  {
    MaxInt(1, Truncate(side as real * (max as real / longest as real)))
  }

  /** `toolImage`: the longer side is cut to the maximum, the other in proportion. */
  function Fit(size: Size, max: int): Size
    requires max > 0
  {
    var longest := MaxInt(size.w, size.h);
    if longest <= max then size
    else Size(Scaled(size.w, max, longest), Scaled(size.h, max, longest))
  }

  /** The size a tool gives an image, or why it refuses. */
  function ToolSize(tool: Tool, size: Size): Option<Size> {
    match tool
    case Zoom(factor) =>
      if factor.None? || factor.value <= 0.0 || factor.value > 8.0 then None
      else Some(Size(MaxInt(1, Round(size.w as real * factor.value)), MaxInt(1, Round(size.h as real * factor.value))))
    case Crop(region) =>
      if region.None? then None
      else
        var r := region.value;
        if r.x.None? || r.y.None? || r.w.None? || r.h.None? then None
        else
          var (x, y, w, h) := (r.x.value, r.y.value, r.w.value, r.h.value);
          if x < 0.0 || y < 0.0 || w <= 0.0 || h <= 0.0 || x + w > size.w as real || y + h > size.h as real then None
          else Some(Size(Truncate(x + w) - Truncate(x), Truncate(y + h) - Truncate(y)))
    case Rotate(degrees) =>
      if degrees.None? || Remainder(Truncate(degrees.value), 90) != 0 then None
      else
        var d := Truncate(degrees.value) % 360;
        Some(if d == 90 || d == 270 then Size(size.h, size.w) else size)
    case UnknownTool => None
  }

  /** PNG encoding refuses an image without pixels. */
  predicate Encodes(size: Size) {
    size.w > 0 && size.h > 0
  }

  function ToolName(id: string, images: Images): string {
    id + "-tool-" + NatToString(|images|)
  }

  /** What a call makes of the registry. */
  function Dispatch(images: Images, max: int, call: ToolCall): (Images, Result)
    requires max > 0
  {
    match call.imageId
    case None => (images, Error("image_id is required"))
    case Some(id) =>
      if id == "" then (images, Error("image_id is required"))
      else if id !in images then (images, Error("unknown image_id"))
      else if !images[id].decodes then (images, Error("decode image"))
      else
        match ToolSize(call.tool, Size(images[id].width, images[id].height))
        case None => (images, Error("invalid arguments"))
        case Some(size) =>
          var fitted := Fit(size, max);
          if !Encodes(fitted) then (images, Error("encode image"))
          else
            var name := ToolName(id, images);
            (images[name := Image("tool-result", fitted.w, fitted.h, true)], Ok(name))
  }

  /** The registry of one conversation. */
  class ImageRegistry {
    var images: Images
    const maxImageDim: int

    constructor (maxDim: int)
      ensures images == map[] && maxImageDim > 0 && (maxDim > 0 ==> maxImageDim == maxDim)
    {
      images := map[];
      maxImageDim := if maxDim > 0 then maxDim else 4096;
    }

    method Add(id: string, img: Image)
      modifies this
      ensures images == old(images)[id := img]
    {
      images := images[id := img];
    }

    /** Scale to the maximum, encode, and store under a new name. */
    method ToolImage(id: string, size: Size) returns (r: Result)
      requires maxImageDim > 0
      modifies this
      ensures var fitted := Fit(size, maxImageDim);
        if Encodes(fitted) then
          r == Ok(ToolName(id, old(images))) &&
          images == old(images)[ToolName(id, old(images)) := Image("tool-result", fitted.w, fitted.h, true)]
        else r.Error? && images == old(images)
    {
      var fitted := size;
      var longest := MaxInt(size.w, size.h);
      if longest > maxImageDim {
        fitted := Size(Scaled(size.w, maxImageDim, longest), Scaled(size.h, maxImageDim, longest));
      }
      if !Encodes(fitted) {
        return Error("encode image");
      }
      var name := id + "-tool-" + NatToString(|images|);
      Add(name, Image("tool-result", fitted.w, fitted.h, true));
      return Ok(name);
    }

    method DispatchImageTool(call: ToolCall) returns (r: Result)
      requires maxImageDim > 0
      modifies this
      ensures images == Dispatch(old(images), maxImageDim, call).0
      ensures r.Ok? || Dispatch(old(images), maxImageDim, call).1.Ok? ==> r == Dispatch(old(images), maxImageDim, call).1
    {
      if call.imageId.None? || call.imageId.value == "" {
        return Error("image_id is required");
      }
      var id := call.imageId.value;
      if id !in images {
        return Error("unknown image_id");
      }
      if !images[id].decodes {
        return Error("decode image");
      }
      var size := ToolSize(call.tool, Size(images[id].width, images[id].height));
      if size.None? {
        return Error("invalid arguments");
      }
      r := ToolImage(id, size.value);
    }
  }

  function RunCalls(images: Images, max: int, calls: seq<ToolCall>): Images
    requires max > 0
    decreases |calls|
  {
    if calls == [] then images
    else Dispatch(RunCalls(images, max, calls[..|calls| - 1]), max, calls[|calls| - 1]).0
  }

  // ----- tool names

  /** The digits behind the last dash cannot be part of longer digits. */
  lemma TailNotShorter(a: string, x: string, b: string, y: string)
    requires (a + "-tool-") + x == b + y && AllDigits(y)
    ensures |x| >= |y|
  {
    var t := (a + "-tool-") + x;
    var i := |a| + 5;
    assert t[i] == '-';
    assert forall k :: |b| <= k < |t| ==> IsDigit(t[k]);
  }

  /** A tool name determines its number. */
  lemma ToolNumber(a: string, m: nat, b: string, n: nat)
    requires a + "-tool-" + NatToString(m) == b + "-tool-" + NatToString(n)
    ensures m == n
  {
    var x, y := NatToString(m), NatToString(n);
    TailNotShorter(a, x, b + "-tool-", y);
    TailNotShorter(b, y, a + "-tool-", x);
    SameTail(a + "-tool-", x, b + "-tool-", y);
    NatToStringInjective(m, n);
  }

  // ----- sizes

  lemma ScaledBound(side: int, longest: int, max: int)
    requires 0 < max < longest && side <= longest
    ensures 1 <= Scaled(side, max, longest) <= max
  {
    var scale := max as real / longest as real;
    assert scale * longest as real == max as real;
    if side >= 0 {
      MulLess(side as real, longest as real, scale);
    } else {
      MulLess(side as real, 0.0, scale);
    }
  }

  lemma MulLess(a: real, b: real, c: real)
    requires a <= b && c >= 0.0
    ensures a * c <= b * c
  {
  }

  /** What `toolImage` can encode fits the registry: both sides in 1..max. */
  lemma FitBounds(size: Size, max: int)
    requires max > 0 && Encodes(Fit(size, max))
    ensures 1 <= Fit(size, max).w <= max && 1 <= Fit(size, max).h <= max
  {
    var longest := MaxInt(size.w, size.h);
    if longest > max {
      ScaledBound(size.w, longest, max);
      ScaledBound(size.h, longest, max);
    }
  }

  // ----- what the tools give

  predicate Near(n: int, r: real) {
    -0.5 <= n as real - r <= 0.5
  }

  /** A zoom takes factors up to 8 and gives sides in that proportion, rounded, and at least one. */
  lemma ZoomSizes(factor: Option<real>, size: Size)
    ensures ToolSize(Zoom(factor), size).Some? <==> factor.Some? && 0.0 < factor.value <= 8.0
    ensures ToolSize(Zoom(factor), size).Some? && size.w >= 0 && size.h >= 0 ==>
      var z := ToolSize(Zoom(factor), size).value; var (w, h) := (size.w as real * factor.value, size.h as real * factor.value);
      (if w < 0.5 then z.w == 1 else Near(z.w, w)) && (if h < 0.5 then z.h == 1 else Near(z.h, h))
  {
    if ToolSize(Zoom(factor), size).Some? && size.w >= 0 && size.h >= 0 {
      MulLess(0.0, size.w as real, factor.value);
      MulLess(0.0, size.h as real, factor.value);
    }
  }

  /** The region is a rectangle with sides inside an image of the size. */
  predicate Inside(r: Region, size: Size) {
    && r.x.Some? && r.y.Some? && r.w.Some? && r.h.Some?
    && r.w.value > 0.0 && r.h.value > 0.0
    && 0.0 <= r.x.value && r.x.value + r.w.value <= size.w as real
    && 0.0 <= r.y.value && r.y.value + r.h.value <= size.h as real
  }

  /** A crop takes regions inside the image, is less than a pixel off their size, and
      not off at all at whole numbers. */
  lemma CropSizes(region: Option<Region>, size: Size)
    ensures ToolSize(Crop(region), size).Some? <==> region.Some? && Inside(region.value, size)
    ensures ToolSize(Crop(region), size).Some? ==>
      var (c, r) := (ToolSize(Crop(region), size).value, region.value);
      && -1.0 < c.w as real - r.w.value < 1.0 && -1.0 < c.h as real - r.h.value < 1.0
      && 0 <= c.w <= size.w && 0 <= c.h <= size.h
  {
  }

  lemma CropExact(x: nat, y: nat, w: nat, h: nat, size: Size)
    requires w > 0 && h > 0 && x + w <= size.w && y + h <= size.h
    ensures ToolSize(Crop(Some(Region(Some(x as real), Some(y as real), Some(w as real), Some(h as real)))), size)
            == Some(Size(w, h))
  {
    assert (x + w) as real == x as real + w as real && (y + h) as real == y as real + h as real;
  }

  /** A rotation takes multiples of 90 after dropping fractions, and gives the size of the rotated image. */
  lemma RotateSizes<P>(degrees: Option<real>, m: Rotation.Img<P>)
    requires m.Valid()
    ensures ToolSize(Rotate(degrees), Size(m.w, m.h)).Some? <==> degrees.Some? && Truncate(degrees.value) % 90 == 0
    ensures degrees.Some? && Truncate(degrees.value) % 90 == 0 ==>
      var r := Rotation.Rotate(m, Truncate(degrees.value)); ToolSize(Rotate(degrees), Size(m.w, m.h)) == Some(Size(r.w, r.h))
  {
    if degrees.Some? {
      RemainderZero(Truncate(degrees.value));
    }
  }

  lemma RemainderZero(a: int)
    ensures Remainder(a, 90) == 0 <==> a % 90 == 0
  {
  }

  /** An image within the maximum keeps its size; of a larger one the longer side
      becomes the maximum, and the other follows in proportion, less than a pixel off
      and at least one. */
  lemma FitSizes(size: Size, max: int)
    requires max > 0 && size.w >= 0 && size.h >= 0
    ensures MaxInt(size.w, size.h) <= max ==> Fit(size, max) == size
    ensures size.w > max && size.h <= size.w ==> Fit(size, max).w == max && Follows(Fit(size, max).h, size.h, max, size.w)
    ensures size.h > max && size.w <= size.h ==> Fit(size, max).h == max && Follows(Fit(size, max).w, size.w, max, size.h)
  {
    var longest := MaxInt(size.w, size.h);
    if longest > max {
      ScaledSide(size.w, max, longest);
      ScaledSide(size.h, max, longest);
    }
  }

  /** The side of a fitted image against the side it had. */
  predicate Follows(fitted: int, side: int, max: int, longest: int)
    requires longest > 0
  {
    var r := side as real * (max as real / longest as real);
    if r < 1.0 then fitted == 1 else r - 1.0 < fitted as real <= r
  }

  lemma ScaledSide(side: int, max: int, longest: int)
    requires 0 < max < longest && 0 <= side <= longest
    ensures Follows(Scaled(side, max, longest), side, max, longest)
    ensures side == longest ==> Scaled(side, max, longest) == max
  {
    var scale := max as real / longest as real;
    assert longest as real * scale == max as real;
    MulLess(0.0, side as real, scale);
  }

  // ----- call sequences

  predicate ToolResultFits(img: Image, max: int) {
    1 <= img.width <= max && 1 <= img.height <= max
  }

  /** What one call does: it fails and changes nothing, or it writes one image within
      the bounds under the generated name and leaves every other entry alone. */
  lemma CallWritesOne(images: Images, max: int, call: ToolCall)
    requires max > 0
    ensures var (after, result) := Dispatch(images, max, call);
      match result
      case Error(_) => after == images
      case Ok(name) =>
        && call.imageId.Some? && Usable(images, call.imageId.value) && name == ToolName(call.imageId.value, images)
        && name in after && after - {name} == images - {name} && ToolResultFits(after[name], max) && after[name].decodes
  {
    var (after, result) := Dispatch(images, max, call);
    if result.Ok? {
      var id := call.imageId.value;
      FitBounds(ToolSize(call.tool, Size(images[id].width, images[id].height)).value, max);
    }
  }

  /** An id that some tool accepts. */
  predicate Usable(images: Images, id: string) {
    id != "" && id in images && images[id].decodes
  }

  /** The size a call's image has, once its tool is done and the registry has fitted it. */
  function Resulting(images: Images, max: int, call: ToolCall): Option<Size>
    requires max > 0 && call.imageId.Some? && call.imageId.value in images
  {
    var img := images[call.imageId.value];
    match ToolSize(call.tool, Size(img.width, img.height))
    case None => None
    case Some(size) => Some(Fit(size, max))
  }

  /** A call succeeds exactly if its image is usable, its tool takes the arguments and
      pixels are left; the new image is a tool's result of the resulting size. */
  lemma CallSucceedsIff(images: Images, max: int, call: ToolCall)
    requires max > 0
    ensures var (after, result) := Dispatch(images, max, call);
      && (result.Ok? <==>
            && call.imageId.Some? && Usable(images, call.imageId.value) && Resulting(images, max, call).Some?
            && Resulting(images, max, call).value.w > 0 && Resulting(images, max, call).value.h > 0)
      && (result.Ok? ==>
            && result.id in after && after[result.id].kind == "tool-result"
            && Size(after[result.id].width, after[result.id].height) == Resulting(images, max, call).value)
  {
  }

  /** A call that every usable id accepts. */
  function Look(id: string): ToolCall {
    ToolCall(Some(id), Zoom(Some(1.0)))
  }

  lemma ScaledPositive(side: int, max: int, longest: int)
    requires 0 < max < longest
    ensures Scaled(side, max, longest) >= 1
  {
  }

  lemma LookSucceeds(images: Images, max: int, id: string)
    requires max > 0 && Usable(images, id)
    ensures Dispatch(images, max, Look(id)).1 == Ok(ToolName(id, images))
  {
    var size := ToolSize(Zoom(Some(1.0)), Size(images[id].width, images[id].height)).value;
    if MaxInt(size.w, size.h) > max {
      ScaledPositive(size.w, max, MaxInt(size.w, size.h));
      ScaledPositive(size.h, max, MaxInt(size.w, size.h));
    }
  }

  /** A successful call whose generated name is already an id of the registry. */
  predicate Overwrites(images: Images, max: int, call: ToolCall)
    requires max > 0
  {
    var (_, result) := Dispatch(images, max, call);
    result.Ok? && result.id in images
  }

  /** No call of the sequence writes over an image. */
  predicate NeverOverwrites(images: Images, max: int, calls: seq<ToolCall>)
    requires max > 0
    decreases |calls|
  {
    calls == [] ||
    (NeverOverwrites(images, max, calls[..|calls| - 1]) &&
     !Overwrites(RunCalls(images, max, calls[..|calls| - 1]), max, calls[|calls| - 1]))
  }

  // ----- names that tools can come to

  /** The name of a tool's image of a tool's image ... of an image. */
  function Chain(id: string, ns: seq<nat>): string
    decreases |ns|
  {
    if ns == [] then id else Chain(id + "-tool-" + NatToString(ns[0]), ns[1..])
  }

  /** Numbers that a growing registry can give out, one after the other. */
  predicate GivenOut(ns: seq<nat>, size: nat) {
    ns == [] || (ns[0] >= size && GivenOut(ns[1..], ns[0] + 1))
  }

  /** A name that tools can come to is already taken. */
  ghost predicate Ahead(images: Images) {
    exists id: string, ns: seq<nat> :: Taken(images, id, ns)
  }

  predicate Taken(images: Images, id: string, ns: seq<nat>) {
    Usable(images, id) && ns != [] && GivenOut(ns, |images|) && Chain(id, ns) in images
  }

  lemma {:induction false} ChainLast(id: string, ns: seq<nat>, n: nat)
    ensures Chain(id, ns + [n]) == Chain(id, ns) + "-tool-" + NatToString(n)
    decreases |ns|
  {
    if ns == [] {
      assert ns + [n] == [n] && [n][1..] == [];
    } else {
      assert (ns + [n])[1..] == ns[1..] + [n];
      ChainLast(id + "-tool-" + NatToString(ns[0]), ns[1..], n);
    }
  }

  predicate AllBelow(ns: seq<nat>, size: nat) {
    forall i :: 0 <= i < |ns| ==> ns[i] < size
  }

  lemma {:induction false} GivenOutMore(ns: seq<nat>, size: nat, n: nat)
    requires GivenOut(ns, size) && AllBelow(ns, n) && n >= size
    ensures GivenOut(ns + [n], size)
    decreases |ns|
  {
    if ns == [] {
      assert ns + [n] == [n] && [n][1..] == [];
    } else {
      assert (ns + [n])[1..] == ns[1..] + [n];
      assert forall i :: 0 <= i < |ns[1..]| ==> ns[1..][i] == ns[i + 1];
      GivenOutMore(ns[1..], ns[0] + 1, n);
    }
  }

  // ----- a sequence that overwrites

  lemma RunCons(images: Images, max: int, call: ToolCall, calls: seq<ToolCall>)
    requires max > 0
    ensures RunCalls(images, max, [call] + calls) == RunCalls(Dispatch(images, max, call).0, max, calls)
    ensures NeverOverwrites(images, max, [call] + calls) <==>
            !Overwrites(images, max, call) && NeverOverwrites(Dispatch(images, max, call).0, max, calls)
    decreases |calls|
  {
    var all := [call] + calls;
    if calls == [] {
      assert all[..0] == [] && all == [call];
    } else {
      assert all[..|all| - 1] == [call] + calls[..|calls| - 1];
      RunCons(images, max, call, calls[..|calls| - 1]);
    }
  }

  /** From a registry with a taken name, looking at one image until the registry has
      grown to the name's number, and then at the next image of the chain, overwrites. */
  lemma {:induction false} TakenOverwrites(images: Images, max: int, id: string, ns: seq<nat>) returns (calls: seq<ToolCall>)
    requires max > 0 && Taken(images, id, ns)
    ensures !NeverOverwrites(images, max, calls)
    decreases |ns|, ns[0] - |images|
  {
    LookSucceeds(images, max, id);
    CallWritesOne(images, max, Look(id));
    var name := ToolName(id, images);
    var (after, result) := Dispatch(images, max, Look(id));
    if name in images {
      RunCons(images, max, Look(id), []);
      calls := [Look(id)] + [];
      return;
    }
    GrownByOne(images, after, name);
    var later;
    if ns[0] > |images| {
      later := TakenOverwrites(after, max, id, ns);
    } else {
      later := TakenOverwrites(after, max, name, ns[1..]);
    }
    RunCons(images, max, Look(id), later);
    calls := [Look(id)] + later;
  }

  lemma GrownByOne(images: Images, after: Images, name: string)
    requires name !in images && name in after && after - {name} == images - {name}
    ensures |after| == |images| + 1 && after.Keys == images.Keys + {name}
    ensures forall id :: id in images ==> after[id] == images[id]
  {
    assert images - {name} == images;
    assert after == (after - {name})[name := after[name]];
    assert after.Keys == images.Keys + {name};
    assert |after| == |after.Keys| && |images| == |images.Keys|;
  }

  // ----- and the only way to overwrite

  /** The ids of a registry that has grown from another: its own, and names that
      tools have come to with numbers below its size. */
  ghost predicate Grown(images: Images, after: Images) {
    && images.Keys <= after.Keys && |images| <= |after|
    && (forall id :: id in images ==> after[id] == images[id])
    && (forall id :: id in after && id !in images ==> exists base: string, ns: seq<nat> :: CameTo(images, |after|, id, base, ns))
  }

  predicate CameTo(images: Images, size: nat, id: string, base: string, ns: seq<nat>) {
    Usable(images, base) && ns != [] && GivenOut(ns, |images|) && AllBelow(ns, size) && id == Chain(base, ns)
  }

  /** The name a call generates continues a chain. */
  lemma NextName(images: Images, after: Images, id: string) returns (base: string, ns: seq<nat>)
    requires Grown(images, after) && Usable(after, id)
    ensures Usable(images, base) && ns != [] && GivenOut(ns, |images|) && ns[|ns| - 1] == |after|
    ensures AllBelow(ns[..|ns| - 1], |after|) && Chain(base, ns) == ToolName(id, after)
  {
    if id in images {
      base, ns := id, [] + [|after|];
      ChainLast(id, [], |after|);
      GivenOutMore([], |images|, |after|);
    } else {
      var b: string, ms: seq<nat> :| CameTo(images, |after|, id, b, ms);
      base, ns := b, ms + [|after|];
      ChainLast(b, ms, |after|);
      GivenOutMore(ms, |images|, |after|);
      assert ns[..|ns| - 1] == ms;
    }
  }

  /** A name that tools came to has the number of the last call, which is below the size. */
  lemma CameToBelow(images: Images, size: nat, id: string, base: string, ns: seq<nat>, other: string)
    requires CameTo(images, size, id, base, ns)
    ensures id != other + "-tool-" + NatToString(size)
  {
    var k := |ns| - 1;
    assert ns == ns[..k] + [ns[k]];
    ChainLast(base, ns[..k], ns[k]);
    if id == other + "-tool-" + NatToString(size) {
      ToolNumber(Chain(base, ns[..k]), ns[k], other, size);
    }
  }

  /** In a registry that has grown without overwriting, the next call overwrites only
      an image of the start, and only if that was ahead. */
  lemma OverwritesOnlyAhead(images: Images, after: Images, max: int, call: ToolCall)
    requires max > 0 && Grown(images, after) && Overwrites(after, max, call)
    ensures Ahead(images) && Dispatch(after, max, call).1.id in images
  {
    CallWritesOne(after, max, call);
    var id := call.imageId.value;
    var name := ToolName(id, after);
    var base, ns := NextName(images, after, id);
    if name !in images {
      var b: string, ms: seq<nat> :| CameTo(images, |after|, name, b, ms);
      CameToBelow(images, |after|, name, b, ms, id);
    }
    assert Taken(images, base, ns);
  }

  lemma GrowthOf(images: Images, after: Images, more: Images, name: string, base: string, ns: seq<nat>)
    requires Grown(images, after) && name !in after && more.Keys == after.Keys + {name} && |more| == |after| + 1
    requires forall id :: id in after ==> more[id] == after[id]
    requires CameTo(images, |more|, name, base, ns)
    ensures Grown(images, more)
  {
    forall id | id in more && id !in images
      ensures exists b: string, ms: seq<nat> :: CameTo(images, |more|, id, b, ms)
    {
      if id != name {
        var b: string, ms: seq<nat> :| CameTo(images, |after|, id, b, ms);
        assert CameTo(images, |more|, id, b, ms);
      }
    }
  }

  lemma BelowNext(ns: seq<nat>, size: nat)
    requires ns != [] && ns[|ns| - 1] == size && AllBelow(ns[..|ns| - 1], size)
    ensures AllBelow(ns, size + 1)
  {
    assert ns == ns[..|ns| - 1] + [ns[|ns| - 1]];
  }

  lemma GrowthOnce(images: Images, after: Images, more: Images, id: string, name: string)
    requires Grown(images, after) && Usable(after, id) && name == ToolName(id, after)
    requires name !in after && name in more && more - {name} == after - {name}
    ensures Grown(images, more) && |more| == |after| + 1
  {
    GrownByOne(after, more, name);
    var base, ns := NextName(images, after, id);
    BelowNext(ns, |after|);
    GrowthOf(images, after, more, name, base, ns);
  }

  lemma GrowthKept(images: Images, after: Images, max: int, call: ToolCall)
    requires max > 0 && Grown(images, after) && !Overwrites(after, max, call)
    ensures Grown(images, Dispatch(after, max, call).0)
    ensures |Dispatch(after, max, call).0| == |after| + if Dispatch(after, max, call).1.Ok? then 1 else 0
  {
    CallWritesOne(after, max, call);
    var (more, result) := Dispatch(after, max, call);
    if result.Ok? {
      GrowthOnce(images, after, more, call.imageId.value, result.id);
    }
  }

  /** How many calls of a sequence succeed. */
  function Successes(images: Images, max: int, calls: seq<ToolCall>): nat
    requires max > 0
    decreases |calls|
  {
    if calls == [] then 0
    else
      var before := calls[..|calls| - 1];
      Successes(images, max, before)
      + if Dispatch(RunCalls(images, max, before), max, calls[|calls| - 1]).1.Ok? then 1 else 0
  }

  /** Every image that is not of the start has both sides in 1..max. */
  ghost predicate AddedFit(images: Images, after: Images, max: int) {
    forall id :: id in after && id !in images ==> ToolResultFits(after[id], max)
  }

  lemma AddedFitKept(images: Images, after: Images, max: int, call: ToolCall)
    requires max > 0 && AddedFit(images, after, max)
    ensures AddedFit(images, Dispatch(after, max, call).0, max)
  {
    CallWritesOne(after, max, call);
    var (more, result) := Dispatch(after, max, call);
    if result.Ok? {
      forall id | id in more && id !in images
        ensures ToolResultFits(more[id], max)
      {
        assert id != result.id ==> id in after - {result.id} && more[id] == (more - {result.id})[id];
      }
    }
  }

  /** Without an overwriting call, every successful call adds exactly one image, with
      both sides in 1..max, and all images of the start stay. */
  lemma {:induction false} CallsAddFreshImages(images: Images, max: int, calls: seq<ToolCall>)
    requires max > 0 && NeverOverwrites(images, max, calls)
    ensures var after := RunCalls(images, max, calls);
      && Grown(images, after) && |after| == |images| + Successes(images, max, calls)
      && AddedFit(images, after, max)
    decreases |calls|
  {
    if calls != [] {
      var before, call := calls[..|calls| - 1], calls[|calls| - 1];
      var mid := RunCalls(images, max, before);
      CallsAddFreshImages(images, max, before);
      GrowthKept(images, mid, max, call);
      AddedFitKept(images, mid, max, call);
    }
  }

  lemma {:induction false} NotAheadNeverOverwrites(images: Images, max: int, calls: seq<ToolCall>)
    requires max > 0 && !Ahead(images)
    ensures NeverOverwrites(images, max, calls)
    decreases |calls|
  {
    if calls != [] {
      var before, call := calls[..|calls| - 1], calls[|calls| - 1];
      NotAheadNeverOverwrites(images, max, before);
      CallsAddFreshImages(images, max, before);
      if Overwrites(RunCalls(images, max, before), max, call) {
        OverwritesOnlyAhead(images, RunCalls(images, max, before), max, call);
      }
    }
  }

  /** Some sequence of calls overwrites an image iff the registry starts with a name
      ahead of it: the name that a usable image comes to by tool calls whose numbers
      a growing registry will give out. */
  lemma OverwrittenIffAhead(images: Images, max: int)
    requires max > 0
    ensures (exists calls :: !NeverOverwrites(images, max, calls)) <==> Ahead(images)
  {
    if Ahead(images) {
      var id: string, ns: seq<nat> :| Taken(images, id, ns);
      var calls := TakenOverwrites(images, max, id, ns);
    } else {
      forall calls
        ensures NeverOverwrites(images, max, calls)
      {
        NotAheadNeverOverwrites(images, max, calls);
      }
    }
  }

  /** From a registry whose ids do not look like tool names nothing is ever overwritten. */
  lemma PlainRegistryGrows(images: Images, max: int, calls: seq<ToolCall>)
    requires max > 0 && forall id, n: nat :: id + "-tool-" + NatToString(n) !in images
    ensures var after := RunCalls(images, max, calls);
      && Grown(images, after) && |after| == |images| + Successes(images, max, calls)
      && AddedFit(images, after, max)
  {
    PlainNotAhead(images);
    NotAheadNeverOverwrites(images, max, calls);
    CallsAddFreshImages(images, max, calls);
  }

  lemma PlainNotAhead(images: Images)
    requires forall id, n: nat :: id + "-tool-" + NatToString(n) !in images
    ensures !Ahead(images)
  {
    forall id: string, ns: seq<nat>
      ensures !Taken(images, id, ns)
    {
      if ns != [] {
        var k := |ns| - 1;
        assert ns == ns[..k] + [ns[k]];
        ChainLast(id, ns[..k], ns[k]);
      }
    }
  }
}
