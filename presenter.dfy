/**
 The decision setGlobeImage (lines 32-53 of both scripts) makes once its two
 network calls have answered: which image URL it requests, and what the globe
 container's background style becomes. The latest-capture lookup is reduced to
 its result (an optional token) and the existence check to a boolean.
 */
module Presenter {
  import opened Browser
  import opened Schedule

  /** Fixed prefix of every image URL. */
  const ImageBase := "https://www.data.jma.go.jp/mscweb/data/himawari/img/fd_/fd__"

  /** The variant shown before any selection (line 2). */
  const DefaultVariant := "trm"

  /** What the two awaits of one setGlobeImage run produced: the token returned by
      fetchLatestImageTime, and whether the image request answered with an ok status
      (false also when the request itself failed). */
  datatype Fetch = Fetch(token: Option<string>, imageOk: bool)

  /** The three style properties of the globe container that setGlobeImage writes. */
  datatype Style = Style(backgroundImage: string, backgroundSize: string, backgroundPosition: string)

  /** The container's style before any image was shown. */
  const Unstyled := Style("", "", "")

  /** `if (!timeValue) return;` lets through only a non-empty string: null and
      the empty string are falsy. */
  predicate Usable(token: Option<string>): (b: bool)
    ensures b <==> token != None && token != Some("")
  {
    token.Some? && token.value != ""
  }

  /** imageUrl (line 36). */
  function ImageUrl(variant: string, token: string): (url: string)
    ensures |url| == |ImageBase| + |variant| + 1 + |token| + 4
    ensures url[..|ImageBase|] == ImageBase
    ensures url[|ImageBase|..|ImageBase| + |variant|] == variant
    ensures url[|ImageBase| + |variant|] == '_'
    ensures url[|ImageBase| + |variant| + 1..|url| - 4] == token
    ensures url[|url| - 4..] == ".jpg"
  {
    ImageBase + variant + "_" + token + ".jpg"
  }

  /** For variant identifiers without an underscore, the URL determines the
      variant and the token it was built from. */
  lemma ImageUrlInjective(v1: string, t1: string, v2: string, t2: string)
    requires '_' !in v1 && '_' !in v2
    requires ImageUrl(v1, t1) == ImageUrl(v2, t2)
    ensures v1 == v2 && t1 == t2
  {
  }

  /** The URL whose existence setGlobeImage checks; none when it returns early. */
  function Requested(variant: string, token: Option<string>): (url: Option<string>)
    ensures url.Some? <==> Usable(token)
    ensures url.Some? ==> url == Some(ImageUrl(variant, token.value))
  {
    if Usable(token) then Some(ImageUrl(variant, token.value)) else None
  }

  /** The style that shows the image at url (lines 44-46). */
  function Showing(url: string): (st: Style)
    ensures st.backgroundSize == "cover" && st.backgroundPosition == "center"
    ensures |st.backgroundImage| == |url| + 5
    ensures st.backgroundImage[..4] == "url(" && st.backgroundImage[|url| + 4..] == ")"
    ensures st.backgroundImage[4..|url| + 4] == url
  {
    Style("url(" + url + ")", "cover", "center")
  }

  /** The container's style after one setGlobeImage run. */
  function Present(st: Style, variant: string, f: Fetch): (r: Style)
    ensures r == st || (Usable(f.token) && f.imageOk && r == Showing(ImageUrl(variant, f.token.value)))
    ensures !Usable(f.token) || !f.imageOk ==> r == st
    ensures Usable(f.token) && f.imageOk ==> r == Showing(ImageUrl(variant, f.token.value))
    ensures Usable(f.token) && f.imageOk ==> r.backgroundImage == "url(" + ImageUrl(variant, f.token.value) + ")"
  {
    if Usable(f.token) && f.imageOk then Showing(ImageUrl(variant, f.token.value)) else st
  }

  /** The style either stays whole or is replaced whole: never a mix of old and new
      properties, and a new one always shows the requested URL, sized and centred. */
  lemma PresentIsAtomic(st: Style, variant: string, f: Fetch)
    ensures var r := Present(st, variant, f);
            r == st ||
            (Requested(variant, f.token).Some? &&
             r == Style("url(" + Requested(variant, f.token).value + ")", "cover", "center"))
  {
  }

  /** The background after a refresh cycle: a setGlobeImage run with the outcome
      f, followed by scheduleNextUpdate at clock c, whose own extra setGlobeImage
      run (only at :x0:00) has the outcome extra. Off :x0:00 only the first run
      counts; at :x0:00 a successful extra run decides the background. */
  function AfterCycle(st: Style, variant: string, f: Fetch, c: Clock, extra: Fetch): (r: Style)
    ensures !ImmediateRefresh(c) ==> r == Present(st, variant, f)
    ensures ImmediateRefresh(c) && Usable(extra.token) && extra.imageOk ==>
              r == Showing(ImageUrl(variant, extra.token.value))
    ensures r == st || r == Present(st, variant, f) || r == Present(st, variant, extra)
  {
    var shown := Present(st, variant, f);
    if ImmediateRefresh(c) then Present(shown, variant, extra) else shown
  }

  /** Token "2023020112" with variant "trm" requests .../fd__trm_2023020112.jpg and
      on an ok answer shows it. */
  lemma TrueColourExample(st: Style)
    ensures Requested(DefaultVariant, Some("2023020112")) ==
            Some("https://www.data.jma.go.jp/mscweb/data/himawari/img/fd_/fd__trm_2023020112.jpg")
    ensures Present(st, DefaultVariant, Fetch(Some("2023020112"), true)) ==
            Style("url(" + "https://www.data.jma.go.jp/mscweb/data/himawari/img/fd_/fd__trm_2023020112.jpg" + ")",
                  "cover", "center")
  {
    var url := ImageUrl(DefaultVariant, "2023020112");
    assert Usable(Some("2023020112"));
    assert url == "https://www.data.jma.go.jp/mscweb/data/himawari/img/fd_/fd__trm_2023020112.jpg";
  }
}
