/**
 * The round user avatar: the picture while it has a source that has not failed to load,
 * otherwise up to two upper-cased letters taken from the fallback text, else from the
 * alternative text (which defaults to "Avatar"), else a question mark.
 */
module Avatar {
  import opened Wrappers
  import opened Text

  datatype Size = Small | Medium | Large

  /** `sizeClasses[size]`, with `md` when no size is given. */
  function SizeClasses(size: Option<Size>): string {
    match size.GetOr(Medium)
    case Small => "h-8 w-8 text-xs"
    case Medium => "h-10 w-10 text-sm"
    case Large => "h-12 w-12 text-base"
  }

  /** The `alt` prop after its default: "Avatar" only when it is not given at all. */
  function AltText(alt: Option<string>): string {
    alt.GetOr("Avatar")
  }

  /** `getFallbackText`: a non-empty text, at most two characters long, taken from the first
      non-empty of the fallback and the alternative text. */
  function FallbackText(fallback: Option<string>, alt: Option<string>): (r: string)
    ensures 1 <= |r| <= 2
    ensures fallback.Some? && fallback.value != "" ==> r == ToUpper(Take(fallback.value, 2))
    ensures (fallback.None? || fallback.value == "") && AltText(alt) != "" ==> r == ToUpper(Take(AltText(alt), 2))
    ensures (fallback.None? || fallback.value == "") && AltText(alt) == "" ==> r == "?"
  {
    var a := AltText(alt);
    if fallback.Some? && fallback.value != "" then ToUpper(Take(fallback.value, 2))
    else if a != "" then ToUpper(Take(a, 2))
    else "?"
  }

  /** With neither a fallback nor an alternative text the avatar reads "AV"; only an
      explicitly empty alternative text leaves the question mark. */
  lemma DefaultInitials()
    ensures FallbackText(None, None) == "AV"
    ensures FallbackText(None, Some("")) == "?"
  {
    assert Take("Avatar", 2) == "Av";
  }

  /** The letters come from the start of the fallback, upper-cased. */
  lemma InitialsOfName(first: char, second: char, rest: string)
    ensures FallbackText(Some([first, second] + rest), None) == [UpperChar(first), UpperChar(second)]
  {
    assert Take([first, second] + rest, 2) == [first, second];
  }

  /** Whether the picture is shown rather than the letters. */
  predicate ShowsImage(src: Option<string>, imageError: bool) {
    src.Some? && src.value != "" && !imageError
  }

  datatype Shown = Picture(src: string) | Letters(text: string)

  /** The component's state: whether its picture failed to load. */
  class AvatarState {
    var imageError: bool

    constructor ()
      ensures !imageError
    {
      imageError := false;
    }

    /** The image's `onError`: from now on the letters are shown. */
    method OnImageError()
      modifies this
      ensures imageError
    {
      imageError := true;
    }

    /** What is rendered: the picture's source, or the letters. */
    function Render(src: Option<string>, fallback: Option<string>, alt: Option<string>): (r: Shown)
      reads this
      ensures r.Picture? <==> ShowsImage(src, imageError)
      ensures r.Picture? ==> r.src == src.value
      ensures r.Letters? ==> r.text == FallbackText(fallback, alt) && 1 <= |r.text| <= 2
    {
      if ShowsImage(src, imageError) then Picture(src.value) else Letters(FallbackText(fallback, alt))
    }
  }
}
