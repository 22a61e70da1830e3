/**
 From the limits of a bucket class and of a claim to the quota sent to the core: the narrowing of the
 two, the check against current usage, and the update that sends only differences.

 Parsing of quantities and of 32-bit counts is a parameter, with None for a parse error.
 */
module QuotaPipeline {
  import opened Wrappers
  import opened QuotaUnits

  /** `Value()` of a quantity, and ParseInt(…, 10, 32). */
  datatype Parsers = Parsers(size: string -> Option<int64>, count: string -> Option<int64>)

  datatype Quota = Quota(size: Option<SizeQuota>, quantity: Option<int>)

  const NO_QUOTA := Quota(None, None)

  /** The limits as written; an empty string is an absent limit. */
  datatype Limits = Limits(maxSize: string, maxObjects: string)

  // ---------------------------------------------------------------- narrowing

  /** How GetQuotaConfig narrows one limit: zero stands for none, and a claim replaces it when smaller. */
  function Narrow(class_: Option<int64>, claim: Option<int64>): int64 {
    var base := if class_.Some? then class_.value else 0;
    if claim.Some? && (base == 0 || claim.value < base) then claim.value else base
  }

  /** An absent limit, a parsed one, or a parse error. */
  function ParseLimit(parse: string -> Option<int64>, text: string): Option<Option<int64>> {
    if text == "" then Some(None)
    else
      match parse(text)
      case None => None
      case Some(n) => Some(Some(n))
  }

  function Build(size: int64, objects: int64): Quota {
    Quota(if size > 0 then Some(Encode(size)) else None, if objects > 0 then Some(objects) else None)
  }

  /** GetQuotaConfig; None where it returns an error. */
  function GetQuotaConfig(p: Parsers, class_: Limits, claim: Limits): Option<Quota> {
    if class_.maxSize == "" && class_.maxObjects == "" && claim.maxSize == "" && claim.maxObjects == "" then
        Some(NO_QUOTA)
    else
      var cs, co := ParseLimit(p.size, class_.maxSize), ParseLimit(p.count, class_.maxObjects);
      var os, oo := ParseLimit(p.size, claim.maxSize), ParseLimit(p.count, claim.maxObjects);
      if cs.None? || co.None? || os.None? || oo.None? then None
      else Some(Build(Narrow(cs.value, os.value), Narrow(co.value, oo.value)))
  }

  /** The step-by-step form: parse the class, then let the claim narrow it. */
  method BuildQuotaConfig(p: Parsers, class_: Limits, claim: Limits) returns (r: Option<Quota>)
    ensures r == GetQuotaConfig(p, class_, claim)
  {
    var minMaxSize: int64, minMaxObjects: int64 := 0, 0;
    if class_.maxSize == "" && class_.maxObjects == "" && claim.maxSize == "" && claim.maxObjects == "" {
      return Some(NO_QUOTA);
    }
    if class_.maxSize != "" {
      var n := p.size(class_.maxSize);
      if n.None? { return None; }
      minMaxSize := n.value;
    }
    if class_.maxObjects != "" {
      var n := p.count(class_.maxObjects);
      if n.None? { return None; }
      minMaxObjects := n.value;
    }
    if claim.maxSize != "" {
      var n := p.size(claim.maxSize);
      if n.None? { return None; }
      if minMaxSize == 0 || n.value < minMaxSize { minMaxSize := n.value; }
    }
    if claim.maxObjects != "" {
      var n := p.count(claim.maxObjects);
      if n.None? { return None; }
      if minMaxObjects == 0 || n.value < minMaxObjects { minMaxObjects := n.value; }
    }
    var size: Option<SizeQuota> := None;
    if minMaxSize > 0 {
      var f, unit := GetBytesAndUnits(minMaxSize, 2);
      EncodeIsScaled(minMaxSize);
      size := Some(SizeQuota(f, unit));
    }
    return Some(Quota(size, if minMaxObjects > 0 then Some(minMaxObjects) else None));
  }

  function Min(a: int64, b: int64): int64 { if a <= b then a else b }

  /** Both limits are set, to positive values. */
  predicate BothSet(parse: string -> Option<int64>, class_: string, claim: string, a: int64, b: int64) {
    class_ != "" && claim != "" && parse(class_) == Some(a) && parse(claim) == Some(b) && a > 0 && b > 0
  }

  /**
   With a positive object limit in the class and in the claim, whatever the sizes, the object quota
   is their minimum.
   */
  lemma ObjectQuotaIsMinimum(p: Parsers, class_: Limits, claim: Limits, a: int64, b: int64)
    requires BothSet(p.count, class_.maxObjects, claim.maxObjects, a, b)
    ensures var q := GetQuotaConfig(p, class_, claim); q.Some? ==> q.value.quantity == Some(Min(a, b))
  {
  }

  /**
   With a positive size limit in the class and in the claim, whatever the object limits, the size
   quota decodes to at most their minimum, and to no less than the encoding's loss allows.
   */
  lemma SizeQuotaWithinMinimum(p: Parsers, class_: Limits, claim: Limits, a: int64, b: int64)
    requires BothSet(p.size, class_.maxSize, claim.maxSize, a, b)
    ensures var q := GetQuotaConfig(p, class_, claim);
            q.Some? ==>
              && Decode(q.value.size).Some? && Decode(q.value.size).value <= Min(a, b)
              && Decode(q.value.size).value as real > Min(a, b) as real - Scale(UnitIndex(Min(a, b))) / 100.0 - 0.5
  {
    EncodingBound(Min(a, b));
  }

  /** A quota is built exactly when every limit that is set parses. */
  lemma BuiltIffParses(p: Parsers, class_: Limits, claim: Limits)
    ensures GetQuotaConfig(p, class_, claim).Some? <==>
            && (class_.maxSize == "" || p.size(class_.maxSize).Some?)
            && (claim.maxSize == "" || p.size(claim.maxSize).Some?)
            && (class_.maxObjects == "" || p.count(class_.maxObjects).Some?)
            && (claim.maxObjects == "" || p.count(claim.maxObjects).Some?)
  {
  }

  /** The text sets a limit, to `n`. */
  predicate SetTo(parse: string -> Option<int64>, text: string, n: int64) {
    text != "" && parse(text) == Some(n)
  }

  /** The text sets no limit, or a positive one. */
  predicate AbsentOrPositive(parse: string -> Option<int64>, text: string) {
    text == "" || (parse(text).Some? && parse(text).value > 0)
  }

  predicate AbsentOrNonNegative(parse: string -> Option<int64>, text: string) {
    text == "" || (parse(text).Some? && parse(text).value >= 0)
  }

  /** The quota lets the bucket hold at most `limit` objects. */
  predicate CapsObjects(q: Quota, limit: int) {
    q.quantity.Some? && q.quantity.value <= limit
  }

  /** The quota, as the core decodes it, lets the bucket hold at most `limit` bytes. */
  predicate CapsBytes(q: Quota, limit: int) {
    Decode(q.size).Some? && Decode(q.size).value <= limit
  }

  /**
   A positive object limit of the class is enforced exactly when the claim sets none or a positive one:
   a claim of zero or less lifts it.
   */
  lemma ClassObjectsEnforcedIff(p: Parsers, class_: Limits, claim: Limits, a: int64)
    requires SetTo(p.count, class_.maxObjects, a) && a > 0 && GetQuotaConfig(p, class_, claim).Some?
    ensures CapsObjects(GetQuotaConfig(p, class_, claim).value, a) <==> AbsentOrPositive(p.count, claim.maxObjects)
  {
  }

  /** The same for the size, in the bytes that the quota decodes to. */
  lemma ClassSizeEnforcedIff(p: Parsers, class_: Limits, claim: Limits, a: int64)
    requires SetTo(p.size, class_.maxSize, a) && a > 0 && GetQuotaConfig(p, class_, claim).Some?
    ensures CapsBytes(GetQuotaConfig(p, class_, claim).value, a) <==> AbsentOrPositive(p.size, claim.maxSize)
  {
    EncodingBound(a);
    if claim.maxSize != "" && p.size(claim.maxSize).value > 0 {
      EncodingBound(p.size(claim.maxSize).value);
    }
  }

  /** A positive object limit of the claim is enforced exactly when the class sets none or a non-negative one. */
  lemma ClaimObjectsEnforcedIff(p: Parsers, class_: Limits, claim: Limits, b: int64)
    requires SetTo(p.count, claim.maxObjects, b) && b > 0 && GetQuotaConfig(p, class_, claim).Some?
    ensures CapsObjects(GetQuotaConfig(p, class_, claim).value, b) <==> AbsentOrNonNegative(p.count, class_.maxObjects)
  {
  }

  /** The same for the size. */
  lemma ClaimSizeEnforcedIff(p: Parsers, class_: Limits, claim: Limits, b: int64)
    requires SetTo(p.size, claim.maxSize, b) && b > 0 && GetQuotaConfig(p, class_, claim).Some?
    ensures CapsBytes(GetQuotaConfig(p, class_, claim).value, b) <==> AbsentOrNonNegative(p.size, class_.maxSize)
  {
    EncodingBound(b);
    if class_.maxSize != "" && p.size(class_.maxSize).value > 0 {
      EncodingBound(p.size(class_.maxSize).value);
    }
  }

  /** One such case each: a class of five objects and a claim of none, a class of less than none and a claim of five. */
  lemma LimitsLifted(p: Parsers)
    requires SetTo(p.count, "5", 5) && SetTo(p.count, "0", 0) && SetTo(p.count, "-1", -1)
    ensures GetQuotaConfig(p, Limits("", "5"), Limits("", "0")) == Some(NO_QUOTA)
    ensures GetQuotaConfig(p, Limits("", "-1"), Limits("", "5")) == Some(NO_QUOTA)
  {
  }

  // ---------------------------------------------------------------- the usage check

  datatype Capacity = Capacity(size: Option<BigInt>, free: Option<BigInt>)

  datatype Bucket = Bucket(isNamespace: bool, capacity: Option<Capacity>, numObjects: Option<int>, quota: Option<Quota>)

  datatype Check = Fits | ObjectsBelowUsage(objects: int, current: int) | SizeBelowUsage(bytes: int, used: BigInt)

  function UsedBytes(b: Bucket): int {
    if b.capacity.None? then 0 else ToBig(b.capacity.value.size)
  }

  function UsedObjects(b: Bucket): int {
    if b.numObjects.None? then 0 else b.numObjects.value
  }

  /**
   ValidateQuotaAgainstBucketUsage.  The size error prints the bucket's own capacity record: that it
   exists there is part of this function's well-formedness.
   */
  function Validate(b: Bucket, q: Quota): Check {
    var sizeBytes := if Decode(q.size).Some? then Decode(q.size).value else 0;
    var objects := if q.quantity.Some? && q.quantity.value > 0 then q.quantity.value else 0;
    if (sizeBytes == 0 && objects == 0) || b.isNamespace then Fits
    else if objects > 0 && UsedObjects(b) > objects then ObjectsBelowUsage(objects, UsedObjects(b))
    else if sizeBytes > 0 && UsedBytes(b) > sizeBytes then SizeBelowUsage(sizeBytes, b.capacity.value.size.value)
    else Fits
  }

  /** What it accepts, for a bucket that is not a namespace bucket: every limit the quota sets covers what is used. */
  lemma FitsIff(b: Bucket, q: Quota)
    requires !b.isNamespace && (q.size.Some? ==> Decode(q.size).Some? && Decode(q.size).value > 0)
    requires q.quantity.Some? ==> q.quantity.value > 0
    ensures Validate(b, q).Fits? <==>
            (q.size.Some? ==> UsedBytes(b) <= Decode(q.size).value)
                && (q.quantity.Some? ==> UsedObjects(b) <= q.quantity.value)
  {
  }

  /** Whether WarnIfQuotaCappedByFree warns for a bucket it was given. */
  predicate Warns(b: Bucket, q: Quota) {
    && Decode(q.size).Some? && !b.isNamespace && b.capacity.Some?
    && b.capacity.value.free.Some? && b.capacity.value.size.Some?
    && Decode(q.size).value - UsedBytes(b) > ToBig(b.capacity.value.free)
  }

  /** The space a bucket reports as available under a size quota of `bytes`. */
  function Available(bytes: int, b: Bucket): int
    requires b.capacity.Some?
  {
    var left, free := bytes - UsedBytes(b), ToBig(b.capacity.value.free);
    if free <= left then free else left
  }

  predicate Known(b: Bucket) {
    !b.isNamespace && b.capacity.Some? && b.capacity.value.free.Some? && b.capacity.value.size.Some?
  }

  /**
   It warns exactly when part of the quota is out of reach: a quota smaller by one byte would leave
   the same space available.  Then no larger quota makes more available either.
   */
  lemma WarnsIffCapped(b: Bucket, q: Quota, larger: int)
    requires Decode(q.size).Some? && Known(b)
    ensures Warns(b, q) <==> Available(Decode(q.size).value - 1, b) == Available(Decode(q.size).value, b)
    ensures Warns(b, q) && larger >= Decode(q.size).value ==> Available(larger, b) == Available(Decode(q.size).value, b)
  {
  }

  /**
   The warning's own words, that raising the quota will not help, hold also in one case it passes
   over: a quota that ends exactly where the free space does.
   */
  lemma RaisingHelpsIff(b: Bucket, q: Quota)
    requires Decode(q.size).Some? && Known(b)
    ensures var n := Decode(q.size).value;
      (exists larger :: larger > n && Available(larger, b) > Available(n, b))
      <==> !Warns(b, q) && n - UsedBytes(b) != ToBig(b.capacity.value.free)
  {
    var n := Decode(q.size).value;
    if !Warns(b, q) && n - UsedBytes(b) != ToBig(b.capacity.value.free) {
      assert Available(n + 1, b) > Available(n, b);
    }
  }

  // ---------------------------------------------------------------- the update

  /** QuotaConfig.IsEqual, of pointers that may be nil. */
  predicate IsEqual(q: Option<Quota>, q2: Option<Quota>) {
    || (q.None? && q2.None?)
    || (q.None? && q2.value == NO_QUOTA)
    || (q2.None? && q.Some? && q.value == NO_QUOTA)
    || q == q2
  }

  function Effective(q: Option<Quota>): Quota {
    if q.None? then NO_QUOTA else q.value
  }

  /** It is the equality that takes a missing quota for an empty one. */
  lemma IsEqualIff(q: Option<Quota>, q2: Option<Quota>)
    ensures IsEqual(q, q2) <==> Effective(q) == Effective(q2)
  {
  }

  datatype Update = NoClass | NoBucket | BadLimits | Unchanged | Refused(check: Check) | Failed | Sent(quota: Quota)

  /** UpdateBucket: the bucket the core then holds, and how it ended. */
  function UpdateBucket(p: Parsers, class_: Option<Limits>, claim: Limits, bucket: Option<Bucket>,
                        accepted: bool): (Option<Bucket>, Update) {
    if class_.None? then (bucket, NoClass)
    else if bucket.None? then (bucket, NoBucket)
    else
      match GetQuotaConfig(p, class_.value, claim)
      case None => (bucket, BadLimits)
      case Some(q) =>
        if IsEqual(Some(q), bucket.value.quota) then (bucket, Unchanged)
        else if !Validate(bucket.value, q).Fits? then (bucket, Refused(Validate(bucket.value, q)))
        else if !accepted then (bucket, Failed)
        else (Some(bucket.value.(quota := Some(q))), Sent(q))
  }

  /** The same against a core that holds the bucket. */
  class Core {
    var bucket: Option<Bucket>

    method Update(p: Parsers, class_: Option<Limits>, claim: Limits, accepted: bool) returns (r: Update)
      modifies this
      ensures (bucket, r) == UpdateBucket(p, class_, claim, old(bucket), accepted)
    {
      if class_.None? { return NoClass; }
      if bucket.None? { return NoBucket; }
      var quota := BuildQuotaConfig(p, class_.value, claim);
      if quota.None? { return BadLimits; }
      if IsEqual(quota, bucket.value.quota) { return Unchanged; }
      var check := Validate(bucket.value, quota.value);
      if !check.Fits? { return Refused(check); }
      if !accepted { return Failed; }
      bucket := Some(bucket.value.(quota := quota));
      return Sent(quota.value);
    }
  }

  /** Every quota that is built decodes, and its counts are positive. */
  lemma BuiltDecodes(p: Parsers, class_: Limits, claim: Limits)
    requires GetQuotaConfig(p, class_, claim).Some?
    ensures var q := GetQuotaConfig(p, class_, claim).value;
            (q.size.Some? ==> Decode(q.size).Some? && Decode(q.size).value > 0)
                && (q.quantity.Some? ==> q.quantity.value > 0)
  {
    var cs, os := ParseLimit(p.size, class_.maxSize), ParseLimit(p.size, claim.maxSize);
    if cs.Some? && os.Some? && Narrow(cs.value, os.value) > 0 {
      EncodedPositive(Narrow(cs.value, os.value));
    }
  }

  lemma EncodedPositive(n: int64)
    requires n > 0
    ensures Decode(Some(Encode(n))).Some? && Decode(Some(Encode(n))).value > 0
  {
    EncodingBound(n);
    PositiveProduct(Encode(n).value, UnitIndex(n));
  }

  lemma PositiveProduct(x: real, k: nat)
    requires x >= 1.0
    ensures Round(x * Scale(k)) > 0
  {
    MulLe(1.0, x, Scale(k));
  }

  /** The quota leaves room for what the bucket holds; a namespace bucket holds nothing of its own. */
  predicate Covers(b: Bucket, q: Quota) {
    b.isNamespace || ((q.size.Some? ==> Decode(q.size).Some? && UsedBytes(b) <= Decode(q.size).value)
                      && (q.quantity.Some? ==> UsedObjects(b) <= q.quantity.value))
  }

  /**
   When an update is sent: the class and the bucket exist, the limits parse, what they come to differs
   from the quota in force and covers the usage, and the core accepts.  The bucket then holds that
   quota, and nothing else of it changes; otherwise nothing does.
   */
  lemma SentIff(p: Parsers, class_: Option<Limits>, claim: Limits, bucket: Option<Bucket>, accepted: bool)
    ensures var (bucket', r) := UpdateBucket(p, class_, claim, bucket, accepted);
            && (r.Sent? <==>
                  && class_.Some? && bucket.Some? && GetQuotaConfig(p, class_.value, claim).Some? && accepted
                  && var q := GetQuotaConfig(p, class_.value, claim).value;
                     Effective(bucket.value.quota) != q && Covers(bucket.value, q))
            && (if r.Sent? then
                  && r.quota == GetQuotaConfig(p, class_.value, claim).value
                  && bucket' == Some(bucket.value.(quota := Some(r.quota)))
                else bucket' == bucket)
  {
    if class_.Some? && bucket.Some? && GetQuotaConfig(p, class_.value, claim).Some? {
      var q := GetQuotaConfig(p, class_.value, claim).value;
      BuiltDecodes(p, class_.value, claim);
      IsEqualIff(Some(q), bucket.value.quota);
      if !bucket.value.isNamespace { FitsIff(bucket.value, q); }
    }
  }

  /** Which limit a refusal names: the objects where they do not fit, else the size, each with what is in use. */
  lemma RefusalNames(p: Parsers, class_: Limits, claim: Limits, b: Bucket)
    requires GetQuotaConfig(p, class_, claim).Some?
    ensures var q := GetQuotaConfig(p, class_, claim).value;
            var check := Validate(b, q);
            && (check.Fits? <==> Covers(b, q))
            && (check.ObjectsBelowUsage? <==>
                  !b.isNamespace && q.quantity.Some? && UsedObjects(b) > q.quantity.value)
            && (check.ObjectsBelowUsage? ==> check.objects == q.quantity.value && check.current == UsedObjects(b))
            && (check.SizeBelowUsage? ==>
                  Some(check.bytes) == Decode(q.size) && b.capacity.Some? && b.capacity.value.size == Some(check.used))
  {
    BuiltDecodes(p, class_, claim);
    if !b.isNamespace { FitsIff(b, GetQuotaConfig(p, class_, claim).value); }
  }

  /** A quota that UpdateBucket sends for a non-namespace bucket is at least what the bucket holds. */
  lemma SentCoversUsage(p: Parsers, class_: Option<Limits>, claim: Limits, b: Bucket, accepted: bool)
    requires UpdateBucket(p, class_, claim, Some(b), accepted).1.Sent? && !b.isNamespace
    ensures var q := UpdateBucket(p, class_, claim, Some(b), accepted).1.quota;
            && (q.size.Some? ==> Decode(q.size).Some? && UsedBytes(b) <= Decode(q.size).value)
            && (q.quantity.Some? ==> UsedObjects(b) <= q.quantity.value)
  {
    BuiltDecodes(p, class_.value, claim);
    FitsIff(b, GetQuotaConfig(p, class_.value, claim).value);
  }

  /** After an update went through, repeating it sends nothing, whatever happened to the usage meanwhile. */
  lemma SecondUpdateQuiet(p: Parsers, class_: Option<Limits>, claim: Limits, b: Bucket, accepted: bool, later: Bucket,
                          accepted': bool)
    requires var r := UpdateBucket(p, class_, claim, Some(b), accepted); r.1.Sent? || r.1.Unchanged?
    requires later.quota == UpdateBucket(p, class_, claim, Some(b), accepted).0.value.quota
    ensures UpdateBucket(p, class_, claim, Some(later), accepted') == (Some(later), Unchanged)
  {
    IsEqualIff(GetQuotaConfig(p, class_.value, claim), later.quota);
  }
}
