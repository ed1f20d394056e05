/**
 * The integration icon: a Font Awesome icon named "fa:<key>", an image URL, or
 * the first letter of a fallback text.
 */
module Icon {
  import opened Strings

  /** What is rendered. */
  datatype IconView = FontAwesome(key: string) | Image(src: string) | Letter(text: string)

  /** The Font Awesome icons the component knows, by lowercase key. */
  const FaIconKeys: set<string> := {"spotify"}

  const FaPrefix: string := "fa:"

  /** The lowercased key after the "fa:" prefix. */
  function FaKey(icon: string): string
    requires HasPrefix(icon, FaPrefix)
  {
    ToLower(icon[|FaPrefix|..])
  }

  /** At most the first code point of s, uppercased. */
  function FirstLetter(s: string): (r: string)
    ensures s == "" ==> r == ""
    ensures s != "" ==> r == [UpperChar(s[0])]
  {
    ToUpper(if s == "" then s else s[..1])
  }

  /**
   * The icon shown for an icon text ("" when there is none) and a fallback
   * text: a known "fa:" key gives that icon; any other non-empty icon text is an
   * image source, an unknown "fa:" key included; otherwise the fallback's first letter.
   */
  function Resolve(icon: string, fallback: string): (v: IconView)
    ensures v.FontAwesome? <==> HasPrefix(icon, FaPrefix) && FaKey(icon) in FaIconKeys
    ensures v.FontAwesome? ==> v.key in FaIconKeys
    ensures v.Image? ==> v.src == icon && icon != ""
    ensures v.Letter? <==> icon == ""
    ensures v.Letter? ==> v.text == FirstLetter(fallback) && |v.text| <= 1
  {
    if HasPrefix(icon, FaPrefix) && FaKey(icon) in FaIconKeys then FontAwesome(FaKey(icon))
    else if icon != "" then Image(icon)
    else Letter(FirstLetter(fallback))
  }

  /** The key lookup ignores case: any spelling of a known key after "fa:" gives that icon. */
  lemma FaKeyIgnoresCase(key: string, fallback: string)
    requires ToLower(key) in FaIconKeys
    ensures Resolve(FaPrefix + key, fallback) == FontAwesome(ToLower(key))
  {
    assert (FaPrefix + key)[|FaPrefix|..] == key;
  }

  /** An unknown "fa:" key is not an error: the icon text is used as an image source. */
  lemma UnknownFaKeyIsImage(key: string, fallback: string)
    requires ToLower(key) !in FaIconKeys
    ensures Resolve(FaPrefix + key, fallback) == Image(FaPrefix + key)
  {
    assert (FaPrefix + key)[|FaPrefix|..] == key;
  }

  /** "fa:Spotify" resolves to the spotify icon. */
  lemma SpotifyAnyCase()
    ensures Resolve("fa:Spotify", "") == FontAwesome("spotify")
  {
    var key := "Spotify";
    assert ToLower(key) == "spotify";
    FaKeyIgnoresCase(key, "");
    assert FaPrefix + key == "fa:Spotify";
  }
}
