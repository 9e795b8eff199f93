/** The reusable atomic request of one plane, rewritten for every attempt, and the damage blobs it leaves behind. */
module PlaneCommits {
  import opened Wrappers
  import opened Atlas
  import opened PlaneDamages

  const MAX_PROPERTIES: nat := 8
  const SUBPIXEL: int := 0x1_0000

  datatype PlaneProperties = PlaneProperties(
    framebuffer: U32, sourceX: U32, sourceY: U32, sourceWidth: U32, sourceHeight: U32,
    rotation: Option<(U32, U64)>, inFenceFd: Option<U32>, damageClips: Option<U32>)

  /** The arguments of an atomic commit ioctl. */
  datatype Request = Request(objects: seq<U32>, counts: seq<U32>, properties: seq<U32>, values: seq<U64>)

  datatype DeviceEvent =
    | Created(blob: U32, clips: seq<Clip>)
    | Committed(request: Request)
    | Destroyed(blob: U32)

  /** What the kernel answers during one attempt. */
  datatype Kernel = Kernel(blob: Option<U32>, accepts: bool, destroys: bool)

  /** One attempt: the framebuffer, the damage if it is tracked, and the kernel's answers. */
  datatype Attempt = Attempt(framebuffer: U32, damage: Option<seq<Clip>>, kernel: Kernel)

  // ---------- What a request says ----------

  function PropertiesOf(p: PlaneProperties): seq<U32> {
    [p.framebuffer, p.sourceX, p.sourceY, p.sourceWidth, p.sourceHeight] + OptionalProperties(p)
  }

  function ValuesOf(p: PlaneProperties, source: PixelRect, framebuffer: U32, blob: U32): seq<U64> {
    [framebuffer, source.x * SUBPIXEL, source.y * SUBPIXEL, source.width * SUBPIXEL, source.height * SUBPIXEL]
    + OptionalValues(p, blob)
  }

  function OptionalProperties(p: PlaneProperties): seq<U32> {
    (if p.rotation.Some? then [p.rotation.value.0] else [])
    + (if p.inFenceFd.Some? then [p.inFenceFd.value] else [])
    + (if p.damageClips.Some? then [p.damageClips.value] else [])
  }

  function OptionalValues(p: PlaneProperties, blob: U32): seq<U64> {
    (if p.rotation.Some? then [p.rotation.value.1] else [])
    + (if p.inFenceFd.Some? then [U64_MAX] else [])
    + (if p.damageClips.Some? then [blob] else [])
  }

  function FenceIndex(p: PlaneProperties): Option<nat> {
    if p.inFenceFd.Some? then Some(5 + if p.rotation.Some? then 1 else 0) else None
  }

  function DamageIndex(p: PlaneProperties): Option<nat> {
    if p.damageClips.Some? then Some(|PropertiesOf(p)| - 1) else None
  }

  function RequestOf(plane: U32, p: PlaneProperties, source: PixelRect, framebuffer: U32, blob: U32): Request {
    Request([plane], [|PropertiesOf(p)|], PropertiesOf(p), ValuesOf(p, source, framebuffer, blob))
  }

  /** The blob an attempt creates for its damage: none if the plane or the frame has no damage, or creation fails. */
  function BlobOf(p: PlaneProperties, a: Attempt): Option<U32> {
    if p.damageClips.Some? && a.damage.Some? then a.kernel.blob else None
  }

  /** The identifier in the damage slot: the null blob unless the attempt created one. */
  function SlotOf(p: PlaneProperties, a: Attempt): U32 {
    BlobOf(p, a).GetOr(0)
  }

  /** What one attempt does to the device: create, commit, destroy. */
  function AttemptEvents(plane: U32, p: PlaneProperties, source: PixelRect, a: Attempt): seq<DeviceEvent> {
    (if BlobOf(p, a).Some? then [Created(BlobOf(p, a).value, BlobClips(a.damage.value))] else [])
    + [Committed(RequestOf(plane, p, source, a.framebuffer, SlotOf(p, a)))]
    + (if SlotOf(p, a) != 0 then [Destroyed(SlotOf(p, a))] else [])
  }

  // ---------- The device and the request ----------

  /** The device, as the log of what was asked of it. */
  class Device {
    var log: seq<DeviceEvent>

    constructor ()
      ensures log == []
    {
      log := [];
    }

    method CreatePropertyBlob(clips: seq<Clip>, kernel: Kernel) returns (blob: Result<U32, ()>)
      modifies this
      ensures blob == if kernel.blob.Some? then Ok(kernel.blob.value) else Err(())
      ensures log == old(log) + if kernel.blob.Some? then [Created(kernel.blob.value, clips)] else []
    {
      if kernel.blob.None? {
        return Err(());
      }
      log := log + [Created(kernel.blob.value, clips)];
      blob := Ok(kernel.blob.value);
    }

    method AtomicCommit(request: Request, kernel: Kernel) returns (result: Result<(), ()>)
      modifies this
      ensures result.Ok? == kernel.accepts && log == old(log) + [Committed(request)]
    {
      log := log + [Committed(request)];
      result := if kernel.accepts then Ok(()) else Err(());
    }

    /** A destroy call; a failing one is logged and otherwise ignored. */
    method DestroyPropertyBlob(blob: U32, kernel: Kernel) returns (result: Result<(), ()>)
      modifies this
      ensures result.Ok? == kernel.destroys && log == old(log) + [Destroyed(blob)]
    {
      log := log + [Destroyed(blob)];
      result := if kernel.destroys then Ok(()) else Err(());
    }
  }

  class PlaneCommit {
    const objects: array<U32>
    const counts: array<U32>
    const properties: array<U32>
    const values: array<U64>
    var propertyCount: nat
    var fenceIndex: Option<nat>
    var damageIndex: Option<nat>

    ghost predicate Allocated()
      reads this
    {
      && objects.Length == counts.Length == 1 && properties.Length == values.Length == MAX_PROPERTIES
      && objects != counts && objects != properties && counts != properties
      && propertyCount <= MAX_PROPERTIES
    }

    /** The request is the plane's, with some framebuffer and damage blob left by the last attempt. */
    ghost predicate Valid(plane: U32, p: PlaneProperties, source: PixelRect)
      reads this, objects, counts, properties, values
    {
      && Allocated()
      && propertyCount == |PropertiesOf(p)|
      && fenceIndex == FenceIndex(p) && damageIndex == DamageIndex(p)
      && objects[..] == [plane] && counts[..] == [propertyCount]
      && properties[..propertyCount] == PropertiesOf(p)
      && exists framebuffer, blob :: values[..propertyCount] == ValuesOf(p, source, framebuffer, blob)
    }

    constructor (plane: U32, p: PlaneProperties, source: PixelRect)
      ensures Valid(plane, p, source)
      ensures fresh(objects) && fresh(counts) && fresh(properties) && fresh(values)
      ensures values[..propertyCount] == ValuesOf(p, source, 0, 0)
    {
      objects := new U32[1](_ => plane);
      counts := new U32[1](_ => 0);
      properties := new U32[MAX_PROPERTIES](_ => 0);
      values := new U64[MAX_PROPERTIES](_ => 0);
      propertyCount, fenceIndex, damageIndex := 0, None, None;
      new;
      PushSource(p, source);
      PushOptional(p);
      counts[0] := propertyCount;
      assert values[..propertyCount] == ValuesOf(p, source, 0, 0);
    }

    method PushSource(p: PlaneProperties, source: PixelRect)
      requires Allocated() && propertyCount == 0
      modifies this`propertyCount, properties, values
      ensures Allocated() && propertyCount == 5
      ensures properties[..5] == [p.framebuffer, p.sourceX, p.sourceY, p.sourceWidth, p.sourceHeight]
      ensures values[..5] == [0, source.x * SUBPIXEL, source.y * SUBPIXEL,
                              source.width * SUBPIXEL, source.height * SUBPIXEL]
    {
      Push(p.framebuffer, 0);
      Push(p.sourceX, source.x * SUBPIXEL);
      Push(p.sourceY, source.y * SUBPIXEL);
      Push(p.sourceWidth, source.width * SUBPIXEL);
      Push(p.sourceHeight, source.height * SUBPIXEL);
    }

    method PushOptional(p: PlaneProperties)
      requires Allocated() && propertyCount == 5 && fenceIndex == damageIndex == None
      modifies this`propertyCount, this`fenceIndex, this`damageIndex, properties, values
      ensures Allocated() && propertyCount == |PropertiesOf(p)|
      ensures fenceIndex == FenceIndex(p) && damageIndex == DamageIndex(p)
      ensures properties[..propertyCount] == old(properties[..5]) + OptionalProperties(p)
      ensures values[..propertyCount] == old(values[..5]) + OptionalValues(p, 0)
    {
      if p.rotation.Some? {
        Push(p.rotation.value.0, p.rotation.value.1);
      }
      if p.inFenceFd.Some? {
        fenceIndex := Some(propertyCount);
        Push(p.inFenceFd.value, U64_MAX);
      }
      if p.damageClips.Some? {
        damageIndex := Some(propertyCount);
        Push(p.damageClips.value, 0);
      }
    }

    method Push(property: U32, value: U64)
      requires Allocated() && propertyCount < MAX_PROPERTIES
      modifies this`propertyCount, properties, values
      ensures Allocated() && propertyCount == old(propertyCount) + 1
      ensures properties[..propertyCount] == old(properties[..propertyCount]) + [property]
      ensures values[..propertyCount] == old(values[..propertyCount]) + [value]
    {
      properties[propertyCount] := property;
      values[propertyCount] := value;
      propertyCount := propertyCount + 1;
    }

    /** Writes the framebuffer and the fence, over whatever blob the last attempt left. */
    method Rewrite(framebuffer: U32, ghost p: PlaneProperties, ghost source: PixelRect)
      requires Allocated() && propertyCount == |PropertiesOf(p)| && fenceIndex == FenceIndex(p)
      requires exists f, blob :: values[..propertyCount] == ValuesOf(p, source, f, blob)
      modifies values
      ensures exists blob :: values[..propertyCount] == ValuesOf(p, source, framebuffer, blob)
    {
      ghost var f, blob :| values[..propertyCount] == ValuesOf(p, source, f, blob);
      values[0] := framebuffer;
      assert values[..propertyCount] == ValuesOf(p, source, framebuffer, blob);
      if fenceIndex.Some? {
        values[fenceIndex.value] := U64_MAX;
        assert values[..propertyCount] == ValuesOf(p, source, framebuffer, blob);
      }
    }

    method SetDamage(damageBlob: U32, ghost framebuffer: U32, ghost p: PlaneProperties, ghost source: PixelRect)
      requires Allocated() && propertyCount == |PropertiesOf(p)| && damageIndex == DamageIndex(p) && damageIndex.Some?
      requires exists blob :: values[..propertyCount] == ValuesOf(p, source, framebuffer, blob)
      modifies values
      ensures values[..propertyCount] == ValuesOf(p, source, framebuffer, damageBlob)
    {
      values[damageIndex.value] := damageBlob;
    }

    /** One attempt. What reaches the device depends on this attempt alone, whatever earlier ones left behind. */
    method Submit(device: Device, a: Attempt, ghost plane: U32, ghost p: PlaneProperties, ghost source: PixelRect)
      returns (result: Result<(), ()>)
      requires Valid(plane, p, source)
      modifies values, device
      ensures Valid(plane, p, source)
      ensures device.log == old(device.log) + AttemptEvents(plane, p, source, a)
      ensures result.Ok? == a.kernel.accepts
    {
      Rewrite(a.framebuffer, p, source);
      var damageBlob: U32 := 0;
      if damageIndex.Some? {
        if a.damage.Some? {
          var created := device.CreatePropertyBlob(BlobClips(a.damage.value), a.kernel);
          damageBlob := if created.Ok? then created.value else 0;
        }
        SetDamage(damageBlob, a.framebuffer, p, source);
      }
      assert values[..propertyCount] == ValuesOf(p, source, a.framebuffer, damageBlob);
      result := device.AtomicCommit(
        Request(objects[..], counts[..], properties[..propertyCount], values[..propertyCount]), a.kernel);
      if damageBlob != 0 {
        var destroyed := device.DestroyPropertyBlob(damageBlob, a.kernel);
      }
    }
  }

  // ---------- Over any number of attempts ----------

  function Events(plane: U32, p: PlaneProperties, source: PixelRect, attempts: seq<Attempt>): seq<DeviceEvent> {
    if attempts == [] then []
    else
      Events(plane, p, source, attempts[..|attempts| - 1])
      + AttemptEvents(plane, p, source, attempts[|attempts| - 1])
  }

  /** One request submitted over and over: the device sees the attempts' own events, one attempt after another. */
  method SubmitAll(
    request: PlaneCommit, device: Device, attempts: seq<Attempt>,
    ghost plane: U32, ghost p: PlaneProperties, ghost source: PixelRect)
    requires request.Valid(plane, p, source)
    modifies request.values, device
    ensures request.Valid(plane, p, source)
    ensures device.log == old(device.log) + Events(plane, p, source, attempts)
  {
    for i := 0 to |attempts|
      invariant request.Valid(plane, p, source)
      invariant device.log == old(device.log) + Events(plane, p, source, attempts[..i])
    {
      assert attempts[..i + 1][..i] == attempts[..i];
      var result := request.Submit(device, attempts[i], plane, p, source);
    }
    assert attempts[..|attempts|] == attempts;
  }

  /** The commit requests in a log. */
  function Requests(log: seq<DeviceEvent>): seq<Request> {
    if log == [] then []
    else
      var last := log[|log| - 1];
      Requests(log[..|log| - 1]) + if last.Committed? then [last.request] else []
  }

  lemma {:induction false} RequestsAddUp(first: seq<DeviceEvent>, second: seq<DeviceEvent>)
    ensures Requests(first + second) == Requests(first) + Requests(second)
  {
    if second == [] {
      assert first + second == first;
    } else {
      assert (first + second)[..|first + second| - 1] == first + second[..|second| - 1];
      RequestsAddUp(first, second[..|second| - 1]);
    }
  }

  /** How often a blob is created and destroyed in a log. */
  function Creations(log: seq<DeviceEvent>, blob: U32): nat {
    if log == [] then 0
    else
      Creations(log[..|log| - 1], blob)
      + if log[|log| - 1].Created? && log[|log| - 1].blob == blob then 1 else 0
  }

  function Destructions(log: seq<DeviceEvent>, blob: U32): nat {
    if log == [] then 0
    else
      Destructions(log[..|log| - 1], blob)
      + if log[|log| - 1].Destroyed? && log[|log| - 1].blob == blob then 1 else 0
  }

  lemma {:induction false} CountsAddUp(first: seq<DeviceEvent>, second: seq<DeviceEvent>, blob: U32)
    ensures Creations(first + second, blob) == Creations(first, blob) + Creations(second, blob)
    ensures Destructions(first + second, blob) == Destructions(first, blob) + Destructions(second, blob)
  {
    if second == [] {
      assert first + second == first;
    } else {
      assert (first + second)[..|first + second| - 1] == first + second[..|second| - 1];
      CountsAddUp(first, second[..|second| - 1], blob);
    }
  }

  /** Within one attempt a created blob other than the null blob is destroyed once, after the commit that uses it. */
  lemma {:induction false} AttemptIsBalanced(plane: U32, p: PlaneProperties, source: PixelRect, a: Attempt, blob: U32)
    ensures var events := AttemptEvents(plane, p, source, a);
            && Creations(events, blob) == (if BlobOf(p, a) == Some(blob) then 1 else 0)
            && Destructions(events, blob) == (if blob != 0 && BlobOf(p, a) == Some(blob) then 1 else 0)
  {
    var created := if BlobOf(p, a).Some? then [Created(BlobOf(p, a).value, BlobClips(a.damage.value))] else [];
    var committed := [Committed(RequestOf(plane, p, source, a.framebuffer, SlotOf(p, a)))];
    var destroyed := if SlotOf(p, a) != 0 then [Destroyed(SlotOf(p, a))] else [];
    CountsAddUp(created + committed, destroyed, blob);
    CountsAddUp(created, committed, blob);
  }

  /** Over any attempts, successful or not, every blob but the null blob is destroyed as often as it is created. */
  lemma {:induction false} BlobsAreBalanced(
    plane: U32, p: PlaneProperties, source: PixelRect, attempts: seq<Attempt>, blob: U32)
    ensures var log := Events(plane, p, source, attempts);
            Destructions(log, blob) == if blob == 0 then 0 else Creations(log, blob)
  {
    if attempts != [] {
      var front, last := attempts[..|attempts| - 1], attempts[|attempts| - 1];
      BlobsAreBalanced(plane, p, source, front, blob);
      CountsAddUp(Events(plane, p, source, front), AttemptEvents(plane, p, source, last), blob);
      AttemptIsBalanced(plane, p, source, last, blob);
    }
  }

  /** Every commit that reaches the device, at any place in any sequence of attempts, is one attempt's own. */
  lemma {:induction false} CommitsAreTheirAttempts(
    plane: U32, p: PlaneProperties, source: PixelRect, attempts: seq<Attempt>, e: DeviceEvent)
    requires e in Events(plane, p, source, attempts)
    ensures exists a | a in attempts :: e in AttemptEvents(plane, p, source, a)
  {
    var front, last := attempts[..|attempts| - 1], attempts[|attempts| - 1];
    if e in AttemptEvents(plane, p, source, last) {
      assert last in attempts;
    } else {
      CommitsAreTheirAttempts(plane, p, source, front, e);
      var a :| a in front && e in AttemptEvents(plane, p, source, a);
      assert a in attempts;
    }
  }

  /** Properties with the values they are set to. */
  function Pairs(properties: seq<U32>, values: seq<U64>): (pairs: seq<(U32, U64)>)
    requires |properties| == |values|
  {
    seq(|properties|, k requires 0 <= k < |properties| => (properties[k], values[k]))
  }

  /**
   What a plane is set to: the framebuffer, the source rectangle in 16.16 fixed
   point, and as far as the plane has them its own rotation, no fence, and the
   damage blob.
   */
  function Settings(p: PlaneProperties, source: PixelRect, framebuffer: U32, damage: U32): seq<(U32, U64)> {
    [(p.framebuffer, framebuffer), (p.sourceX, source.x * 0x1_0000), (p.sourceY, source.y * 0x1_0000),
     (p.sourceWidth, source.width * 0x1_0000), (p.sourceHeight, source.height * 0x1_0000)]
    + (if p.rotation.Some? then [p.rotation.value] else [])
    + (if p.inFenceFd.Some? then [(p.inFenceFd.value, 0xFFFF_FFFF_FFFF_FFFF)] else [])
    + (if p.damageClips.Some? then [(p.damageClips.value, damage)] else [])
  }

  /** The request makes these settings, for this plane, and no others. */
  predicate Carries(
    request: Request, plane: U32, p: PlaneProperties, source: PixelRect, framebuffer: U32, damage: U32)
  {
    && request.objects == [plane] && request.counts == [|request.properties|]
    && |request.properties| == |request.values|
    && Pairs(request.properties, request.values) == Settings(p, source, framebuffer, damage)
  }

  lemma {:induction false} PairsConcat(p: seq<U32>, q: seq<U32>, v: seq<U64>, w: seq<U64>)
    requires |p| == |v| && |q| == |w|
    ensures Pairs(p + q, v + w) == Pairs(p, v) + Pairs(q, w)
  {
  }

  lemma {:induction false} OptionalPairs(p: PlaneProperties, blob: U32)
    ensures |OptionalProperties(p)| == |OptionalValues(p, blob)|
    ensures Pairs(OptionalProperties(p), OptionalValues(p, blob)) ==
            (if p.rotation.Some? then [p.rotation.value] else [])
            + (if p.inFenceFd.Some? then [(p.inFenceFd.value, U64_MAX)] else [])
            + (if p.damageClips.Some? then [(p.damageClips.value, blob)] else [])
  {
  }

  lemma {:induction false} RequestCarries(
    plane: U32, p: PlaneProperties, source: PixelRect, framebuffer: U32, blob: U32)
    ensures Carries(RequestOf(plane, p, source, framebuffer, blob), plane, p, source, framebuffer, blob)
  {
    var properties: seq<U32> := [p.framebuffer, p.sourceX, p.sourceY, p.sourceWidth, p.sourceHeight];
    var values: seq<U64> := [framebuffer, source.x * SUBPIXEL, source.y * SUBPIXEL,
                             source.width * SUBPIXEL, source.height * SUBPIXEL];
    OptionalPairs(p, blob);
    PairsConcat(properties, OptionalProperties(p), values, OptionalValues(p, blob));
  }

  /** What the damage slot names: the blob the kernel created for the attempt's damage, or else the null blob. */
  function DamageOf(p: PlaneProperties, a: Attempt): U32 {
    if p.damageClips.Some? && a.damage.Some? && a.kernel.blob.Some? then a.kernel.blob.value else 0
  }

  /** A request that is attempt a's own: it carries a's framebuffer, and the blob created for a's damage. */
  predicate OwnRequest(plane: U32, p: PlaneProperties, source: PixelRect, a: Attempt, request: Request) {
    Carries(request, plane, p, source, a.framebuffer, DamageOf(p, a))
  }

  lemma {:induction false} AttemptsCommitTheirOwn(
    plane: U32, p: PlaneProperties, source: PixelRect, a: Attempt, request: Request)
    requires Committed(request) in AttemptEvents(plane, p, source, a)
    ensures OwnRequest(plane, p, source, a, request)
  {
    RequestCarries(plane, p, source, a.framebuffer, SlotOf(p, a));
  }

  /** An attempt makes one request, its own, and besides it only creates and destroys its blob. */
  lemma {:induction false} AttemptRequests(plane: U32, p: PlaneProperties, source: PixelRect, a: Attempt)
    ensures var events := AttemptEvents(plane, p, source, a);
            && |Requests(events)| == 1 && OwnRequest(plane, p, source, a, Requests(events)[0])
            && |events| == 1 + One(p.damageClips.Some? && a.damage.Some? && a.kernel.blob.Some?)
                           + One(DamageOf(p, a) != 0)
  {
    var request := RequestOf(plane, p, source, a.framebuffer, SlotOf(p, a));
    var created := if BlobOf(p, a).Some? then [Created(BlobOf(p, a).value, BlobClips(a.damage.value))] else [];
    var destroyed := if SlotOf(p, a) != 0 then [Destroyed(SlotOf(p, a))] else [];
    RequestsAddUp(created + [Committed(request)], destroyed);
    RequestsAddUp(created, [Committed(request)]);
    RequestCarries(plane, p, source, a.framebuffer, SlotOf(p, a));
  }

  /** The event creates or destroys this blob. */
  predicate Concerns(e: DeviceEvent, blob: U32) {
    (e.Created? || e.Destroyed?) && e.blob == blob
  }

  /** A blob created from the damage at m and destroyed at o, with a request in between and nothing done to the blob. */
  predicate Brackets(log: seq<DeviceEvent>, m: nat, n: nat, o: nat, blob: U32, damage: seq<Clip>) {
    && m < n < o < |log|
    && log[m] == Created(blob, BlobClips(damage)) && log[n].Committed? && log[o] == Destroyed(blob)
    && forall x | m < x < o :: !Concerns(log[x], blob)
  }

  /** A blob that the attempt's request names is alive while it is made. */
  lemma {:induction false} AttemptBrackets(plane: U32, p: PlaneProperties, source: PixelRect, a: Attempt)
    requires DamageOf(p, a) != 0
    ensures Brackets(AttemptEvents(plane, p, source, a), 0, 1, 2, DamageOf(p, a), a.damage.value)
    ensures Requests(AttemptEvents(plane, p, source, a)[..1]) == []
  {
    var first := AttemptEvents(plane, p, source, a)[..1];
    assert first == [Created(DamageOf(p, a), BlobClips(a.damage.value))] && first[..0] == [];
  }

  /** Over any attempts every commit that reaches the device is one attempt's own: nothing stale is carried along. */
  lemma {:induction false} CommitsCarryNothingStale(
    plane: U32, p: PlaneProperties, source: PixelRect, attempts: seq<Attempt>, request: Request)
    requires Committed(request) in Events(plane, p, source, attempts)
    ensures exists a | a in attempts :: OwnRequest(plane, p, source, a, request)
  {
    CommitsAreTheirAttempts(plane, p, source, attempts, Committed(request));
    var a :| a in attempts && Committed(request) in AttemptEvents(plane, p, source, a);
    AttemptsCommitTheirOwn(plane, p, source, a, request);
  }
}
