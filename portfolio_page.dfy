/** The stateful logic of the landing page: the project carousel, the
    highlighted navigation item that follows scrolling, and the technology chips
    shown over a project's image. Rendering is not modelled. */
module PortfolioPage {
  import opened Wrappers

  // ---------------------------------------------------------------------------
  // Carousel index arithmetic
  // ---------------------------------------------------------------------------

  /** Number of projects in the only category, "projects". */
  const ProjectCount: nat := 5

  /** The index after `i` in a carousel of `n` projects, wrapping to the first. */
  function Next(i: nat, n: nat): (r: nat)
    requires i < n
    ensures r < n
  {
    if i == n - 1 then 0 else i + 1
  }

  /** The index before `i`, wrapping to the last. */
  function Prev(i: nat, n: nat): (r: nat)
    requires i < n
    ensures r < n
  {
    if i == 0 then n - 1 else i - 1
  }

  /** Next is the successor modulo `n`. */
  lemma NextIsSuccessorMod(i: nat, n: nat)
    requires i < n
    ensures Next(i, n) == (i + 1) % n
  {
  }

  /** Prev is the predecessor modulo `n`. */
  lemma PrevIsPredecessorMod(i: nat, n: nat)
    requires i < n
    ensures Prev(i, n) == (i + n - 1) % n
  {
  }

  /** Prev undoes Next. */
  lemma PrevUndoesNext(i: nat, n: nat)
    requires i < n
    ensures Prev(Next(i, n), n) == i
  {
  }

  /** Next undoes Prev. */
  lemma NextUndoesPrev(i: nat, n: nat)
    requires i < n
    ensures Next(Prev(i, n), n) == i
  {
  }

  /** `k` accepted nexts in a row. */
  function Advance(i: nat, n: nat, k: nat): (r: nat)
    requires i < n
    ensures r < n
  {
    if k == 0 then i else Next(Advance(i, n, k - 1), n)
  }

  /** `k` nexts move `k` places forward, modulo `n`. */
  lemma {:induction false} AdvanceMoves(i: nat, n: nat, k: nat)
    requires i < n
    ensures Advance(i, n, k) == (i + k) % n
  {
    if k == 0 {
      ModUnique(i, n, 0, i);
    } else {
      AdvanceMoves(i, n, k - 1);
      NextIsSuccessorMod(Advance(i, n, k - 1), n);
      ModSucc(i + k - 1, n);
    }
  }

  /** Adding one commutes with taking the remainder. */
  lemma ModSucc(a: nat, n: nat)
    requires 0 < n
    ensures (a % n + 1) % n == (a + 1) % n
  {
    var q, r := a / n, a % n;
    ModUnique(a, n, q, r);
    if r == n - 1 {
      ModUnique(a + 1, n, q + 1, 0);
    } else {
      ModUnique(a + 1, n, q, r + 1);
    }
  }

  /** Euclidean division is determined by quotient and remainder. */
  lemma ModUnique(a: int, n: int, q: int, r: int)
    requires 0 < n && 0 <= r < n && a == q * n + r
    ensures a % n == r && a / n == q
  {
    var q0, r0 := a / n, a % n;
    assert (q - q0) * n == r0 - r;
    if q > q0 {
      AtLeastOnce(q - q0, n);
    } else if q < q0 {
      AtLeastOnce(q0 - q, n);
    }
  }

  /** A positive multiple of `n` is at least `n`. */
  lemma AtLeastOnce(d: int, n: int)
    requires d >= 1 && n > 0
    ensures d * n >= n
  {
  }

  /** A full round of `n` nexts comes back to the starting project. */
  lemma FullRound(i: nat, n: nat)
    requires i < n
    ensures Advance(i, n, n) == i
  {
    AdvanceMoves(i, n, n);
    ModUnique(i + n, n, 1, i);
  }

  // ---------------------------------------------------------------------------
  // Sections and the scroll handler's pick
  // ---------------------------------------------------------------------------

  /** The page sections the scroll handler looks at. */
  datatype Section = Home | Services | Projects | Company | Brochures | Contact

  /** The order in which they are tried. */
  const SectionOrder: seq<Section> := [Home, Services, Projects, Company, Brochures, Contact]

  /** An element's bounding box: its top and bottom edge relative to the viewport. */
  datatype Box = Box(top: real, bottom: real)

  /** The box reaches across the line 100 pixels below the top of the viewport. */
  predicate Straddles(b: Box) {
    b.top <= 100.0 && b.bottom >= 100.0
  }

  /** The section's element exists and straddles the line. A section without an
      element is absent from the layout. */
  predicate Hit(layout: map<Section, Box>, s: Section) {
    s in layout && Straddles(layout[s])
  }

  /** `sections.find(...)` over `order`. */
  function FindSection(order: seq<Section>, layout: map<Section, Box>): (r: Option<Section>)
    ensures r.Some? ==> r.value in order && Hit(layout, r.value)
    ensures r.None? <==> forall s :: s in order ==> !Hit(layout, s)
  {
    if order == [] then None
    else if Hit(layout, order[0]) then Some(order[0])
    else FindSection(order[1..], layout)
  }

  /** The section the scroll handler picks. */
  function PickSection(layout: map<Section, Box>): (r: Option<Section>)
    ensures r.Some? ==> Hit(layout, r.value)
    ensures r.None? <==> forall j :: 0 <= j < |SectionOrder| ==> !Hit(layout, SectionOrder[j])
  {
    FindSection(SectionOrder, layout)
  }

  /** No section is listed twice. */
  predicate Distinct(order: seq<Section>) {
    forall a, b :: 0 <= a < b < |order| ==> order[a] != order[b]
  }

  /** The find yields `order[k]` exactly when it is hit and nothing before it is. */
  lemma {:induction false} FindSectionFirstHit(order: seq<Section>, layout: map<Section, Box>, k: nat)
    requires Distinct(order) && k < |order|
    ensures FindSection(order, layout) == Some(order[k]) <==>
      Hit(layout, order[k]) && forall j :: 0 <= j < k ==> !Hit(layout, order[j])
  {
    if k > 0 && !Hit(layout, order[0]) {
      assert Distinct(order[1..]);
      FindSectionFirstHit(order[1..], layout, k - 1);
      forall j | 0 <= j < k ensures !Hit(layout, order[j]) <==> (j == 0 || !Hit(layout, order[1..][j - 1])) {
      }
    } else if k > 0 {
      assert order[0] != order[k];
    }
  }

  /** The scroll handler picks the first section, in page order, whose box straddles the line. */
  lemma PickSectionIsFirstHit(layout: map<Section, Box>, k: nat)
    requires k < |SectionOrder|
    ensures PickSection(layout) == Some(SectionOrder[k]) <==>
      Hit(layout, SectionOrder[k]) && forall j :: 0 <= j < k ==> !Hit(layout, SectionOrder[j])
  {
    FindSectionFirstHit(SectionOrder, layout, k);
  }

  // ---------------------------------------------------------------------------
  // Technology chips
  // ---------------------------------------------------------------------------

  /** How many chips fit over the image. */
  function ChipLimit(mobile: bool): nat {
    if mobile then 3 else 6
  }

  /** `technologies.slice(0, isMobile ? 3 : 6)`. */
  function ShownTechnologies(technologies: seq<string>, mobile: bool): (r: seq<string>)
    ensures r <= technologies
    ensures |r| <= ChipLimit(mobile)
    ensures |r| < ChipLimit(mobile) ==> r == technologies
  {
    if |technologies| <= ChipLimit(mobile) then technologies else technologies[..ChipLimit(mobile)]
  }

  /** The mobile chips are the first of the desktop chips. */
  lemma MobileChipsPrefixDesktop(technologies: seq<string>)
    ensures ShownTechnologies(technologies, true) <= ShownTechnologies(technologies, false)
  {
  }

  // ---------------------------------------------------------------------------
  // The page component's state
  // ---------------------------------------------------------------------------

  /** The state fields the handlers update: `currentProjectIndex`, `isAnimating` and `activeNav`. */
  class Portfolio {
    var index: nat
    var animating: bool
    var activeNav: Section

    ghost predicate Valid()
      reads this
    {
      index < ProjectCount
    }

    /** The initial state: first project, no animation, "home" highlighted. */
    constructor ()
      ensures Valid() && index == 0 && !animating && activeNav == Home
    {
      index := 0;
      animating := false;
      activeNav := Home;
    }

    /** `nextProject`: ignored while animating; otherwise moves on and starts the animation. */
    method NextProject()
      requires Valid()
      modifies this
      ensures Valid() && activeNav == old(activeNav) && animating
      ensures index == if old(animating) then old(index) else Next(old(index), ProjectCount)
    {
      if animating {
        return;
      }
      animating := true;
      index := Next(index, ProjectCount);
    }

    /** `prevProject`: ignored while animating; otherwise moves back and starts the animation. */
    method PrevProject()
      requires Valid()
      modifies this
      ensures Valid() && activeNav == old(activeNav) && animating
      ensures index == if old(animating) then old(index) else Prev(old(index), ProjectCount)
    {
      if animating {
        return;
      }
      animating := true;
      index := Prev(index, ProjectCount);
    }

    /** The timer callback that ends the animation. */
    method AnimationFinished()
      requires Valid()
      modifies this`animating
      ensures Valid() && !animating
    {
      animating := false;
    }

    /** The keyboard handler: ArrowLeft goes back, ArrowRight goes on, other keys do nothing. */
    method KeyDown(key: string)
      requires Valid()
      modifies this
      ensures Valid() && activeNav == old(activeNav)
      ensures key == "ArrowLeft" ==>
        animating && index == if old(animating) then old(index) else Prev(old(index), ProjectCount)
      ensures key == "ArrowRight" ==>
        animating && index == if old(animating) then old(index) else Next(old(index), ProjectCount)
      ensures key != "ArrowLeft" && key != "ArrowRight" ==> unchanged(this)
    {
      if key == "ArrowLeft" {
        PrevProject();
      }
      if key == "ArrowRight" {
        NextProject();
      }
    }

    /** A dot click jumps straight to project `k`, without the animation guard. */
    method SelectProject(k: nat)
      requires k < ProjectCount
      modifies this`index
      ensures Valid() && index == k
    {
      index := k;
    }

    /** The effect that runs when the category changes: back to the first project. */
    method CategoryChanged()
      modifies this`index
      ensures Valid() && index == 0
    {
      index := 0;
    }

    /** The scroll handler: highlights the picked section, or keeps the highlight when none is picked. */
    method HandleScroll(layout: map<Section, Box>)
      requires Valid()
      modifies this`activeNav
      ensures Valid()
      ensures activeNav == if PickSection(layout).Some? then PickSection(layout).value else old(activeNav)
    {
      var current := PickSection(layout);
      if current.Some? {
        activeNav := current.value;
      }
    }
  }

  /** Once the animation has ended, the arrow buttons undo each other. */
  method NextThenPrev(p: Portfolio)
    requires p.Valid() && !p.animating
    modifies p
    ensures p.Valid() && p.index == old(p.index) && p.activeNav == old(p.activeNav)
  {
    p.NextProject();
    p.AnimationFinished();
    PrevUndoesNext(old(p.index), ProjectCount);
    p.PrevProject();
  }

  /** Once the animation has ended, going back and then on also returns to the same project. */
  method PrevThenNext(p: Portfolio)
    requires p.Valid() && !p.animating
    modifies p
    ensures p.Valid() && p.index == old(p.index) && p.activeNav == old(p.activeNav)
  {
    p.PrevProject();
    p.AnimationFinished();
    NextUndoesPrev(old(p.index), ProjectCount);
    p.NextProject();
  }
}
