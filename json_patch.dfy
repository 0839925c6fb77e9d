/**
 * The part of JSON Patch (RFC 6902) the PATCH handler uses: `replace`
 * (section 4.3) and `remove` (section 4.2) applied to the two properties of a
 * `PointOfInterestForUpdateDto`, with errors reported into the model state the
 * way `JsonPatchDocument<T>.ApplyTo(target, ModelState)` reports them.
 */
module JsonPatch {
  import opened Options
  import opened Models

  datatype OperationType = Replace | Remove

  /** One patch operation; `value` is the JSON string (or null) a `replace` writes. */
  datatype Operation = Operation(op: OperationType, path: string, value: Option<string>)

  type PatchDocument = seq<Operation>

  datatype Property = NameProperty | DescriptionProperty

  function ToLowerAscii(c: char): char {
    if 'A' <= c <= 'Z' then (c as int + 32) as char else c
  }

  /** ASCII case folding, character by character: no upper-case ASCII letter is left. */
  function LowerAscii(s: string): (r: string)
    ensures |r| == |s|
    ensures forall i :: 0 <= i < |s| ==> r[i] == ToLowerAscii(s[i])
    ensures forall i :: 0 <= i < |r| ==> !('A' <= r[i] <= 'Z')
  {
    if s == [] then [] else [ToLowerAscii(s[0])] + LowerAscii(s[1..])
  }

  /** Text without upper-case ASCII letters is its own lower-case form. */
  lemma {:induction false} LowerAsciiKeepsLowerCase(s: string)
    requires forall i :: 0 <= i < |s| ==> !('A' <= s[i] <= 'Z')
    ensures LowerAscii(s) == s
  {
    if s != [] {
      LowerAsciiKeepsLowerCase(s[1..]);
    }
  }

  /** The JSON Pointer (RFC 6901) path of each property, in the camel case the serializer writes. */
  function PathOf(p: Property): string {
    match p
    case NameProperty => "/name"
    case DescriptionProperty => "/description"
  }

  /** Property names are looked up ignoring (ASCII) case (see `TargetOfFoldsToPath`). */
  function TargetOf(path: string): Option<Property> {
    var p := LowerAscii(path);
    if p == "/name" then Some(NameProperty)
    else if p == "/description" then Some(DescriptionProperty)
    else None
  }

  /** Folding case twice is folding it once. */
  lemma LowerAsciiIdempotent(s: string)
    ensures LowerAscii(LowerAscii(s)) == LowerAscii(s)
  {
    LowerAsciiKeepsLowerCase(LowerAscii(s));
  }

  /** Two paths that differ only in ASCII case address the same property. */
  lemma TargetOfIgnoresCase(path: string, other: string)
    requires LowerAscii(path) == LowerAscii(other)
    ensures TargetOf(path) == TargetOf(other)
    ensures TargetOf(path) == TargetOf(LowerAscii(path))
  {
    LowerAsciiIdempotent(path);
  }

  /**
   * The contract of `TargetOf`, kept apart from it so that its callers do
   * not carry the case-folding facts: a path addresses the property whose
   * path it folds to, and no property when it folds to neither.
   */
  lemma TargetOfFoldsToPath(path: string)
    ensures TargetOf(path).Some? ==> LowerAscii(path) == PathOf(TargetOf(path).value)
    ensures TargetOf(path).None? ==> forall q :: LowerAscii(path) != PathOf(q)
  {
  }

  /** Each property's own path addresses it. */
  lemma TargetOfPathOf(q: Property)
    ensures TargetOf(PathOf(q)) == Some(q)
  {
    var path := PathOf(q);
    assert forall i :: 0 <= i < |path| ==> path[i] == '/' || 'a' <= path[i] <= 'z';
    LowerAsciiKeepsLowerCase(path);
  }

  /** The model-state key the library uses: the type name of the patched object. */
  const PatchErrorKey := "PointOfInterestForUpdateDto"

  function MissingTargetMessage(path: string): string {
    var segment := if |path| > 0 && path[0] == '/' then path[1..] else path;
    "The target location specified by path segment '" + segment + "' was not found."
  }

  /** What an operation writes: `replace` its value, `remove` the property's default (null). */
  function Written(o: Operation): Option<string> {
    if o.op == Replace then o.value else None
  }

  /** The value of property `p` after operation `o`, given its value before. */
  function Effect(o: Operation, p: Property, current: Option<string>): Option<string> {
    if TargetOf(o.path) == Some(p) then Written(o) else current
  }

  predicate AllTargetsExist(patch: PatchDocument) {
    forall i :: 0 <= i < |patch| ==> TargetOf(patch[i].path).Some?
  }

  /**
   * `ApplyTo(dto, ModelState)`: the operations run in order on the working
   * copy; an operation whose path names no property is reported under the
   * DTO's type name and skipped, and the remaining operations still run.
   */
  function ApplyTo(patch: PatchDocument, dto: PointOfInterestForUpdateDto, ms: ModelState)
    : (r: (PointOfInterestForUpdateDto, ModelState))
    ensures r.1.Keys <= ms.Keys + {PatchErrorKey}
    ensures r.1 == ms <==> AllTargetsExist(patch)
    ensures |MessagesFor(r.1, PatchErrorKey)| >= |MessagesFor(ms, PatchErrorKey)|
    decreases |patch|
  {
    if patch == [] then (dto, ms)
    else
      var o := patch[0];
      var r := match TargetOf(o.path)
        case None => ApplyTo(patch[1..], dto, AddModelError(ms, PatchErrorKey, MissingTargetMessage(o.path)))
        case Some(NameProperty) => ApplyTo(patch[1..], dto.(name := Written(o)), ms)
        case Some(DescriptionProperty) => ApplyTo(patch[1..], dto.(description := Written(o)), ms);
      assert AllTargetsExist(patch) <==> TargetOf(o.path).Some? && AllTargetsExist(patch[1..]) by {
        assert forall i :: 1 <= i < |patch| ==> patch[i] == patch[1..][i - 1];
      }
      assert TargetOf(o.path).None? ==> r.1 != ms by {
        if TargetOf(o.path).None? {
          assert |MessagesFor(r.1, PatchErrorKey)| > |MessagesFor(ms, PatchErrorKey)|;
        }
      }
      r
  }

  /**
   * Independent reading of a patch, from its end: a property ends with the
   * value written by the last operation addressing it, or keeps its value if
   * no operation addresses it.
   */
  function FinalValue(patch: PatchDocument, p: Property, initial: Option<string>): Option<string>
    decreases |patch|
  {
    if patch == [] then initial
    else
      var last := patch[|patch| - 1];
      if TargetOf(last.path) == Some(p) then Written(last) else FinalValue(patch[..|patch| - 1], p, initial)
  }

  lemma {:induction false} FinalValueFirstStep(o: Operation, rest: PatchDocument, p: Property, initial: Option<string>)
    ensures FinalValue([o] + rest, p, initial) == FinalValue(rest, p, Effect(o, p, initial))
    decreases |rest|
  {
    if rest != [] {
      var whole := [o] + rest;
      assert whole[|whole| - 1] == rest[|rest| - 1];
      assert whole[..|whole| - 1] == [o] + rest[..|rest| - 1];
      FinalValueFirstStep(o, rest[..|rest| - 1], p, initial);
    }
  }

  /** Applying a patch leaves each property with the last value written to it. */
  lemma {:induction false} ApplyToLastWriteWins(patch: PatchDocument, dto: PointOfInterestForUpdateDto, ms: ModelState)
    ensures ApplyTo(patch, dto, ms).0.name == FinalValue(patch, NameProperty, dto.name)
    ensures ApplyTo(patch, dto, ms).0.description == FinalValue(patch, DescriptionProperty, dto.description)
    decreases |patch|
  {
    if patch != [] {
      var o := patch[0];
      assert patch == [o] + patch[1..];
      FinalValueFirstStep(o, patch[1..], NameProperty, dto.name);
      FinalValueFirstStep(o, patch[1..], DescriptionProperty, dto.description);
      match TargetOf(o.path)
      case None =>
        ApplyToLastWriteWins(patch[1..], dto, AddModelError(ms, PatchErrorKey, MissingTargetMessage(o.path)));
      case Some(NameProperty) =>
        ApplyToLastWriteWins(patch[1..], dto.(name := Written(o)), ms);
      case Some(DescriptionProperty) =>
        ApplyToLastWriteWins(patch[1..], dto.(description := Written(o)), ms);
    }
  }

  lemma {:induction false} FinalValueIdempotent(patch: PatchDocument, p: Property, initial: Option<string>)
    ensures FinalValue(patch, p, FinalValue(patch, p, initial)) == FinalValue(patch, p, initial)
    decreases |patch|
  {
    if patch != [] && TargetOf(patch[|patch| - 1].path) != Some(p) {
      FinalValueIdempotent(patch[..|patch| - 1], p, initial);
    }
  }

  /**
   * A patch of `replace`/`remove` operations sets absolute values, so applying
   * it a second time to its own result changes nothing.
   */
  lemma ApplyToIdempotent(patch: PatchDocument, dto: PointOfInterestForUpdateDto, ms: ModelState, ms': ModelState)
    ensures var once := ApplyTo(patch, dto, ms).0;
            ApplyTo(patch, once, ms').0 == once
  {
    var once := ApplyTo(patch, dto, ms).0;
    ApplyToLastWriteWins(patch, dto, ms);
    ApplyToLastWriteWins(patch, once, ms');
    FinalValueIdempotent(patch, NameProperty, dto.name);
    FinalValueIdempotent(patch, DescriptionProperty, dto.description);
  }

  /** A property no operation addresses keeps its value. */
  lemma {:induction false} UntouchedPropertyKept(patch: PatchDocument, p: Property, initial: Option<string>)
    requires forall i :: 0 <= i < |patch| ==> TargetOf(patch[i].path) != Some(p)
    ensures FinalValue(patch, p, initial) == initial
    decreases |patch|
  {
    if patch != [] {
      UntouchedPropertyKept(patch[..|patch| - 1], p, initial);
    }
  }
}
