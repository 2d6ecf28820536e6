/** The projects grid: how each card image is fitted into its frame. The
    fit mode of a card is chosen once its image has loaded, from the
    image's natural size. */
module Projects {
  import opened Wrappers

  datatype FitMode = Cover | Contain

  /** The `fitModes` record, keyed by project title. */
  type FitModes = map<string, FitMode>

  /** A dimension reported by the image loader is usable when it is present
      and not zero (`!naturalWidth` is true for `undefined` and `0`). */
  predicate Usable(d: Option<int>) {
    d.Some? && d.value != 0
  }

  /** The mode a loaded image of this size asks for: a square image is shown
      whole, any other one fills the frame. */
  function ModeFor(width: int, height: int): (m: FitMode)
    ensures m == Contain <==> width == height
  {
    if width == height then Contain else Cover
  }

  /** `handleImageLoad`: the record after the image of card `key` reports
      its natural size. */
  function HandleImageLoad(fit: FitModes, key: string, width: Option<int>, height: Option<int>): (r: FitModes)
    ensures !Usable(width) || !Usable(height) ==> r == fit
    ensures Usable(width) && Usable(height) ==>
              key in r && (r[key] == Contain <==> width.value == height.value)
    ensures r.Keys == fit.Keys || r.Keys == fit.Keys + {key}
    ensures forall k :: k in fit && k != key ==> k in r && r[k] == fit[k]
  {
    if !Usable(width) || !Usable(height) then fit
    else fit[key := ModeFor(width.value, height.value)]
  }

  /** The `objectFit` style of a card: its recorded mode, or cover before
      its image has loaded. */
  function ObjectFit(fit: FitModes, key: string): (m: FitMode)
    ensures key !in fit ==> m == Cover
    ensures key in fit ==> m == fit[key]
  {
    if key in fit then fit[key] else Cover
  }

  /** A second load report for the same card and size changes nothing. */
  lemma HandleImageLoadIdempotent(fit: FitModes, key: string, width: Option<int>, height: Option<int>)
    ensures var once := HandleImageLoad(fit, key, width, height);
            HandleImageLoad(once, key, width, height) == once
  {
  }

  /** Reports for two different cards commute. */
  lemma HandleImageLoadCommutes(fit: FitModes, k1: string, w1: Option<int>, h1: Option<int>,
                                k2: string, w2: Option<int>, h2: Option<int>)
    requires k1 != k2
    ensures HandleImageLoad(HandleImageLoad(fit, k1, w1, h1), k2, w2, h2) ==
            HandleImageLoad(HandleImageLoad(fit, k2, w2, h2), k1, w1, h1)
  {
  }

  /** After a usable report, the card is shown whole exactly when its image
      is square; after an unusable one, its style is what it was. */
  lemma ObjectFitAfterLoad(fit: FitModes, key: string, width: Option<int>, height: Option<int>)
    ensures Usable(width) && Usable(height) ==>
              (ObjectFit(HandleImageLoad(fit, key, width, height), key) == Contain <==>
               width.value == height.value)
    ensures !Usable(width) || !Usable(height) ==>
              ObjectFit(HandleImageLoad(fit, key, width, height), key) == ObjectFit(fit, key)
  {
  }

  /** Loading one card's image never changes the style of another card. */
  lemma ObjectFitOtherCards(fit: FitModes, key: string, width: Option<int>, height: Option<int>, other: string)
    requires other != key
    ensures ObjectFit(HandleImageLoad(fit, key, width, height), other) == ObjectFit(fit, other)
  {
  }
}
