/** The aggregate pairing an original URL with its short code, and its
    `"{url}:{code}"` display form. */
module ShortenedUrls {
  import opened Wrappers
  import OriginalUrls
  import ShortCodes

  datatype ShortenedUrl = ShortenedUrl(originalUrl: OriginalUrls.OriginalUrl, shortCode: ShortCodes.ShortCode)

  /** `ShortenedUrl::new`: cannot fail, checks nothing about the pairing and
      keeps both parts unchanged. */
  function New(originalUrl: OriginalUrls.OriginalUrl, shortCode: ShortCodes.ShortCode): (r: ShortenedUrl)
    ensures r.originalUrl == originalUrl && r.shortCode == shortCode
  {
    ShortenedUrl(originalUrl, shortCode)
  }

  /** `Display`: the URL's display, a colon, then the code's display. */
  function Display(s: ShortenedUrl): (d: string)
    ensures var u, c := OriginalUrls.Display(s.originalUrl), ShortCodes.Display(s.shortCode);
      && |d| == |u| + 1 + |c|
      && d[..|u|] == u && d[|u|] == ':' && d[|u| + 1..] == c
  {
    OriginalUrls.Display(s.originalUrl) + ":" + ShortCodes.Display(s.shortCode)
  }

  /** The position of the last colon in `d`, if there is one. */
  function LastColon(d: string): (r: Option<nat>)
    ensures r.Some? ==> r.value < |d| && d[r.value] == ':' && ':' !in d[r.value + 1..]
    ensures r.None? ==> ':' !in d
  {
    if d == [] then None
    else if d[|d| - 1] == ':' then Some(|d| - 1)
    else
      var r := LastColon(d[..|d| - 1]);
      assert d == d[..|d| - 1] + [d[|d| - 1]];
      r
  }

  /** Splits a display form back into its URL text and its code text, at the
      last colon. */
  function SplitDisplay(d: string): (r: Option<(string, string)>)
    ensures r.Some? ==> r.value.0 + ":" + r.value.1 == d && ':' !in r.value.1
  {
    match LastColon(d)
    case None => None
    case Some(i) => Some((d[..i], d[i + 1..]))
  }

  /** The display form determines the record whenever the code holds no colon
      (codes generated by the service never do). */
  lemma SplitDisplayInverts(s: ShortenedUrl)
    requires ':' !in s.shortCode.value
    ensures SplitDisplay(Display(s)) == Some((s.originalUrl.serialization, s.shortCode.value))
  {
  }

  /** Two records with colon-free codes and equal display forms are equal. */
  lemma DisplayInjective(a: ShortenedUrl, b: ShortenedUrl)
    requires ':' !in a.shortCode.value && ':' !in b.shortCode.value
    requires Display(a) == Display(b)
    ensures a == b
  {
  }
}
