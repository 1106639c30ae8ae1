/**
 * The plugin's one reference class (src/lt/.../psi/MyPsiReference.java): an immutable pair of the
 * element it resolves to and the string literal it starts from.
 */
module MyPsiReference {
  import opened Wrappers
  import opened Vfs
  import opened Psi
  import opened CiProject

  /** What a reference can resolve to: an element of some file (an array index), or a file. */
  datatype Target = InFile(element: Element) | WholeFile(file: VFile)

  /** `new MyPsiReference(resolve, literalExpression)`; `None` stands for a null target. */
  datatype Reference = Reference(target: Option<Target>, literal: Id)

  /** The outcome of an operation that can throw `UnsupportedOperationException`. */
  datatype Outcome<T> = Done(value: T) | Unsupported

  /** `getElement`: the literal given to the constructor. */
  function GetElement(r: Reference): (e: Id)
    ensures Reference(r.target, e) == r
  {
    r.literal
  }

  /** `resolve`: the target given to the constructor. */
  function Resolve(r: Reference): (e: Option<Target>)
    ensures Reference(e, r.literal) == r
  {
    r.target
  }

  /** `isReferenceTo(e)`: `resolve() == e`, by identity. */
  predicate IsReferenceTo(r: Reference, e: Target) {
    Resolve(r) == Some(e)
  }

  /** A reference built with a null target refers to nothing. */
  lemma NullTargetRefersToNothing(r: Reference, e: Target)
    requires r.target.None?
    ensures !IsReferenceTo(r, e)
  {
  }

  /** A reference refers to one element at most. */
  lemma RefersToOneTarget(r: Reference, e1: Target, e2: Target)
    requires IsReferenceTo(r, e1) && IsReferenceTo(r, e2)
    ensures e1 == e2
  {
  }

  /** A reference refers to the target it was constructed with, whatever literal it starts from. */
  lemma RefersToConstructedTarget(e: Target, literal: Id)
    ensures IsReferenceTo(Reference(Some(e), literal), e)
  {
  }

  /**
   * `getRangeInElement`: the literal's text range shifted left by its own start, so it starts at
   * 0 and spans the whole literal, quotes included.
   */
  function GetRangeInElement(t: Tree, r: Reference): (range: TextRange)
    ensures range.startOffset == 0 && range.endOffset == |Text(t, r.literal)|
  {
    var whole := RangeOf(t, r.literal);
    TextRange(whole.startOffset - whole.startOffset, whole.endOffset - whole.startOffset)
  }

  /** `getCanonicalText`. */
  function GetCanonicalText(r: Reference): (s: string)
    ensures |s| == 0
  {
    ""
  }

  /** `getVariants`. */
  function GetVariants(r: Reference): (vs: seq<string>)
    ensures |vs| == 0
  {
    []
  }

  /** `isSoft`: unresolved references are not reported as errors. */
  predicate IsSoft(r: Reference) {
    true
  }

  /** `handleElementRename`: always throws, so renaming never changes the literal. */
  function HandleElementRename(r: Reference, newElementName: string): (o: Outcome<Id>)
    ensures o.Unsupported?
  {
    Unsupported
  }

  /** `bindToElement`: always throws. */
  function BindToElement(r: Reference, e: Target): (o: Outcome<Id>)
    ensures o.Unsupported?
  {
    Unsupported
  }
}
