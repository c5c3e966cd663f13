/** The index arithmetic of FrontEnd/components/disease-carousel.tsx: the
    current slide moved by a drag or set by a pagination dot, the window of
    cards shown around it, their stacking order and the click rule that only
    lets the centre card select its disease. */
module DiseaseCarousel {
  import opened TextUtil

  /** A disease card's identity and the name it passes to `onDiseaseSelect`;
      the description is display text only. */
  datatype Disease = Disease(id: nat, name: string)

  const Diseases: seq<Disease> := [
    Disease(1, "Alzheimer's Disease"),
    Disease(2, "Parkinson's Disease"),
    Disease(3, "Type 2 Diabetes"),
    Disease(4, "Hypertension"),
    Disease(5, "Asthma"),
    Disease(6, "Multiple Sclerosis"),
    Disease(7, "Rheumatoid Arthritis")]

  /** Minimum drag distance, in pixels, that changes the slide. */
  const DragThreshold := 50

  /** Widths below this many pixels count as mobile. */
  const MobileBreakpoint := 768

  /** The seven diseases carry the ids 1 to 7, so none is listed twice. */
  lemma DiseaseIds()
    ensures |Diseases| == 7
    ensures forall k :: 0 <= k < |Diseases| ==> Diseases[k].id == k + 1
    ensures forall a, b :: 0 <= a < b < |Diseases| ==> Diseases[a] != Diseases[b]
  {
    assert forall k :: 0 <= k < |Diseases| ==> Diseases[k].id == k + 1;
  }

  // ---------------------------------------------------------------------------
  // Moving the current slide

  /** The slide after a drag that ends `offset` pixels away: a left drag past
      the threshold goes to the next slide, a right drag past it to the
      previous one, both wrapping around. The operands of `%` are never
      negative here, so JavaScript's remainder and Dafny's agree. */
  function DragTarget(index: nat, offset: int): nat
  {
    var n := |Diseases|;
    if offset < -DragThreshold then (index + 1) % n
    else if offset > DragThreshold then (index - 1 + n) % n
    else index
  }

  /** A drag keeps the index among the slides, and moves it exactly when the
      drag went further than the threshold. */
  lemma DragTargetMeaning(index: nat, offset: int)
    requires index < |Diseases|
    ensures DragTarget(index, offset) < |Diseases|
    ensures DragTarget(index, offset) == index <==> -DragThreshold <= offset <= DragThreshold
  {
  }

  /** A left drag and a right drag past the threshold undo each other, in
      either order. */
  lemma DragsCancel(index: nat, left: int, right: int)
    requires index < |Diseases|
    requires left < -DragThreshold && right > DragThreshold
    ensures DragTarget(DragTarget(index, left), right) == index
    ensures DragTarget(DragTarget(index, right), left) == index
  {
    var n := |Diseases|;
    if index == n - 1 {
      assert DragTarget(index, left) == 0;
    }
    if index == 0 {
      assert DragTarget(index, right) == n - 1;
    }
  }

  // ---------------------------------------------------------------------------
  // The visible window

  /** A card shown at `position` slides from the centre. */
  datatype Card = Card(disease: Disease, position: int)

  function VisibleCount(isMobile: bool): nat
  {
    if isMobile then 3 else 5
  }

  /** `count` cards of `ds` centred on `current`: slot `i` holds the entry
      `i - count / 2` places from `current`, wrapping around. */
  function CardsAround(ds: seq<Disease>, current: nat, count: nat): seq<Card>
    requires current < |ds| && count / 2 <= |ds|
  {
    var half := count / 2;
    var n := |ds|;
    seq(count, i requires 0 <= i < count => Card(ds[(current + (i - half) + n) % n], i - half))
  }

  /** `getVisibleCards()`. */
  function VisibleCards(currentIndex: nat, isMobile: bool): seq<Card>
    requires currentIndex < |Diseases|
  {
    CardsAround(Diseases, currentIndex, VisibleCount(isMobile))
  }

  /** `10 - Math.abs(position) * 2`. */
  function ZIndex(position: int): int
  {
    if position < 0 then 10 + position * 2 else 10 - position * 2
  }

  /** A positive multiple of `n` is at least `n`. */
  lemma {:induction false} MulAtLeast(n: int, k: int)
    requires n > 0 && k >= 1
    ensures n * k >= n
    decreases k
  {
    if k > 1 {
      MulAtLeast(n, k - 1);
      assert n * k == n * (k - 1) + n;
    }
  }

  /** Multiples of `n` for different quotients are at least `n` apart. */
  lemma MulGap(n: int, hi: int, lo: int)
    requires n > 0 && hi > lo
    ensures n * hi - n * lo >= n
  {
    MulAtLeast(n, hi - lo);
    assert n * (hi - lo) == n * hi - n * lo;
  }

  /** The remainder is determined by any division with a remainder in range. */
  lemma ModUnique(x: int, n: int, q: int, r: int)
    requires n > 0 && 0 <= r < n && x == n * q + r
    ensures x % n == r
  {
    var q0 := x / n;
    var r0 := x % n;
    assert n * q - n * q0 == r0 - r;
    if q > q0 {
      MulGap(n, q, q0);
      assert false;
    } else if q < q0 {
      MulGap(n, q0, q);
      assert false;
    }
  }

  /** Adding `n` does not change a remainder modulo `n`. */
  lemma ModShift(y: int, n: int)
    requires n > 0
    ensures (y + n) % n == y % n
  {
    assert y + n == n * (y / n + 1) + y % n;
    ModUnique(y + n, n, y / n + 1, y % n);
  }

  /** Two positions fewer than `n` apart never wrap onto the same entry. */
  lemma WrapDistinct(c: int, p1: int, p2: int, n: int)
    requires n > 0 && p1 < p2 < p1 + n
    ensures (c + p1) % n != (c + p2) % n
  {
    var q := (c + p1) / n;
    var r := (c + p1) % n;
    assert c + p2 == n * q + r + (p2 - p1);
    if r + (p2 - p1) < n {
      ModUnique(c + p2, n, q, r + (p2 - p1));
    } else {
      assert c + p2 == n * (q + 1) + (r + (p2 - p1) - n);
      ModUnique(c + p2, n, q + 1, r + (p2 - p1) - n);
    }
  }

  /** The window has `count` cards at positions `-half..` in increasing
      order, and the card at position `p` is the entry `p` places (mod n)
      from the current one. */
  lemma CardsAroundLayout(ds: seq<Disease>, current: nat, count: nat)
    requires current < |ds| && count / 2 <= |ds|
    ensures var cards := CardsAround(ds, current, count);
      && |cards| == count
      && (forall i :: 0 <= i < count ==> cards[i].position == i - count / 2)
      && (forall i :: 0 <= i < count ==> cards[i].disease == ds[(current + cards[i].position) % |ds|])
  {
    var cards := CardsAround(ds, current, count);
    var n := |ds|;
    forall i | 0 <= i < count
      ensures cards[i].disease == ds[(current + cards[i].position) % n]
    {
      var y := current + (i - count / 2);
      assert cards[i] == Card(ds[(y + n) % n], i - count / 2);
      ModShift(y, n);
    }
  }

  /** The middle card is the current entry and is drawn above every other. */
  lemma CardsAroundCentre(ds: seq<Disease>, current: nat, count: nat)
    requires current < |ds| && count / 2 <= |ds| && count > 0
    ensures var cards := CardsAround(ds, current, count);
      && cards[count / 2] == Card(ds[current], 0)
      && (forall i :: 0 <= i < count && i != count / 2 ==> ZIndex(cards[i].position) < ZIndex(0))
  {
    var cards := CardsAround(ds, current, count);
    var half := count / 2;
    var n := |ds|;
    assert cards[half] == Card(ds[(current + (half - half) + n) % n], half - half);
    ModUnique(current + n, n, 1, current);
    forall i | 0 <= i < count && i != half
      ensures ZIndex(cards[i].position) < ZIndex(0)
    {
      assert cards[i].position == i - half;
    }
  }

  /** No entry is shown twice when the window is no wider than the list and
      the list has no repeated entry. */
  lemma CardsAroundDistinct(ds: seq<Disease>, current: nat, count: nat)
    requires current < |ds| && count <= |ds|
    requires forall a, b :: 0 <= a < b < |ds| ==> ds[a] != ds[b]
    ensures var cards := CardsAround(ds, current, count);
      forall i, j :: 0 <= i < j < |cards| ==> cards[i].disease != cards[j].disease
  {
    var cards := CardsAround(ds, current, count);
    var n := |ds|;
    CardsAroundLayout(ds, current, count);
    forall i, j | 0 <= i < j < |cards|
      ensures cards[i].disease != cards[j].disease
    {
      WrapDistinct(current, cards[i].position, cards[j].position, n);
      var a := (current + cards[i].position) % n;
      var b := (current + cards[j].position) % n;
      if a < b {
        assert ds[a] != ds[b];
      } else {
        assert ds[b] != ds[a];
      }
    }
  }

  /** The window has 3 cards on mobile and 5 otherwise, at positions
      `-half..half` in increasing order; the card at position `p` is the
      disease `p` slides (mod 7) from the current one, so the centre card is
      the current disease and is drawn on top. */
  lemma VisibleCardsMeaning(currentIndex: nat, isMobile: bool)
    requires currentIndex < |Diseases|
    ensures var cards := VisibleCards(currentIndex, isMobile);
      var half := VisibleCount(isMobile) / 2;
      && |cards| == VisibleCount(isMobile)
      && (forall i :: 0 <= i < |cards| ==> cards[i].position == i - half)
      && (forall i :: 0 <= i < |cards| ==>
            cards[i].disease == Diseases[(currentIndex + cards[i].position) % |Diseases|])
      && cards[half] == Card(Diseases[currentIndex], 0)
      && (forall i :: 0 <= i < |cards| && i != half ==> ZIndex(cards[i].position) < ZIndex(0))
  {
    CardsAroundLayout(Diseases, currentIndex, VisibleCount(isMobile));
    CardsAroundCentre(Diseases, currentIndex, VisibleCount(isMobile));
  }

  /** No disease is shown twice. */
  lemma VisibleCardsDistinct(currentIndex: nat, isMobile: bool)
    requires currentIndex < |Diseases|
    ensures var cards := VisibleCards(currentIndex, isMobile);
      forall i, j :: 0 <= i < j < |cards| ==> cards[i].disease != cards[j].disease
  {
    DiseaseIds();
    CardsAroundDistinct(Diseases, currentIndex, VisibleCount(isMobile));
  }

  // ---------------------------------------------------------------------------
  // The component's state

  class Carousel {
    var currentIndex: nat
    var isMobile: bool
    var isDragging: bool

    predicate Valid()
      reads this
    {
      currentIndex < |Diseases|
    }

    constructor()
      ensures Valid()
      ensures currentIndex == 0 && !isMobile && !isDragging
    {
      currentIndex := 0;
      isMobile := false;
      isDragging := false;
    }

    /** `checkMobile`, run on mount and on every resize. */
    method CheckMobile(innerWidth: int)
      modifies this`isMobile
      ensures isMobile == (innerWidth < MobileBreakpoint)
    {
      isMobile := innerWidth < MobileBreakpoint;
    }

    /** `onDragStart`. */
    method HandleDragStart()
      modifies this`isDragging
      ensures isDragging
    {
      isDragging := true;
    }

    /** `handleDragEnd`: dragging stops and the offset may change the slide. */
    method HandleDragEnd(offsetX: int)
      requires Valid()
      modifies this`isDragging, this`currentIndex
      ensures Valid()
      ensures !isDragging
      ensures currentIndex == DragTarget(old(currentIndex), offsetX)
    {
      isDragging := false;
      if offsetX < -DragThreshold {
        currentIndex := (currentIndex + 1) % |Diseases|;
      } else if offsetX > DragThreshold {
        currentIndex := (currentIndex - 1 + |Diseases|) % |Diseases|;
      }
    }

    /** A pagination dot: one button per disease, each setting its index. */
    method GoToSlide(index: nat)
      requires index < |Diseases|
      modifies this`currentIndex
      ensures Valid()
      ensures currentIndex == index
    {
      currentIndex := index;
    }

    /** A click on the card in slot `slot` of the window: the disease's name is
        passed to `onDiseaseSelect` only for the centre card and only when no
        drag is in progress. */
    method ClickCard(slot: nat) returns (selected: Option<string>)
      requires Valid()
      requires slot < VisibleCount(isMobile)
      ensures selected.Some? <==> slot == VisibleCount(isMobile) / 2 && !isDragging
      ensures selected.Some? ==> selected.value == Diseases[currentIndex].name
    {
      VisibleCardsMeaning(currentIndex, isMobile);
      var cards := VisibleCards(currentIndex, isMobile);
      var isCenter := cards[slot].position == 0;
      if isCenter && !isDragging {
        selected := Some(cards[slot].disease.name);
      } else {
        selected := None;
      }
    }

    /** A press on the "Get research" button of the card in slot `slot`. Only
        the active (centre) card shows that button; its handler stops the
        event before the wrapper sees it and passes the name to
        `onDiseaseSelect` (given as `onCardClick`) without looking at the
        drag state. */
    method ClickGetResearch(slot: nat) returns (selected: Option<string>)
      requires Valid()
      requires slot < VisibleCount(isMobile)
      ensures selected.Some? <==> slot == VisibleCount(isMobile) / 2
      ensures selected.Some? ==> selected.value == Diseases[currentIndex].name
    {
      VisibleCardsMeaning(currentIndex, isMobile);
      var cards := VisibleCards(currentIndex, isMobile);
      var isActive := cards[slot].position == 0;
      if isActive {
        selected := Some(cards[slot].disease.name);
      } else {
        selected := None;
      }
    }
  }
}
