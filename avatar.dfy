/** The avatar helpers (src/utils/avatarUtils.ts): the DiceBear image URL
    seeded with the username, the `src`/`alt` props built from it, and the
    initials avatar whose colour is picked from the first character's
    code. */
module Avatar {
  import opened Common
  import Uri

  /** The DiceBear styles `generateAvatarUrl` accepts. */
  datatype Style = Adventurer | Avataaars | BigEars | Bottts | Croodles | FunEmoji | Micah | Miniavs | Personas {
    function Name(): string {
      match this
      case Adventurer => "adventurer"
      case Avataaars => "avataaars"
      case BigEars => "big-ears"
      case Bottts => "bottts"
      case Croodles => "croodles"
      case FunEmoji => "fun-emoji"
      case Micah => "micah"
      case Miniavs => "miniavs"
      case Personas => "personas"
    }
  }

  /** The default style. */
  const DefaultStyle: Style := Personas

  const UrlPrefix: string := "https://api.dicebear.com/7.x/"
  const SeedKey: string := "/svg?seed="
  const UrlSuffix: string := "&backgroundColor=b6e3f4,c0aede,d1d4f9,ffd5dc,ffdfbf"

  /** Everything before the seed. */
  function UrlHead(style: Style): string {
    UrlPrefix + style.Name() + SeedKey
  }

  /** `generateAvatarUrl(username, style)` */
  function AvatarUrl(username: string, style: Style): string {
    UrlHead(style) + Uri.EncodeUriComponent(username) + UrlSuffix
  }

  /** The seed sits between the fixed head and suffix, holds no `&` (so
      it cannot run into the `backgroundColor` parameter), and decodes to
      the username. */
  lemma SeedRecoverable(username: string, style: Style)
    ensures var url := AvatarUrl(username, style);
      var seed := url[|UrlHead(style)|..|url| - |UrlSuffix|];
      && seed == Uri.EncodeUriComponent(username)
      && (forall i :: 0 <= i < |seed| ==> seed[i] != '&')
      && Uri.DecodeUriComponent(seed) == Some(username)
  {
    var h := UrlHead(style);
    var seed := Uri.EncodeUriComponent(username);
    var url := h + seed + UrlSuffix;
    assert url == AvatarUrl(username, style);
    assert |url| - |UrlSuffix| == |h| + |seed|;
    assert url[|h|..|h| + |seed|] == seed;
    assert !Uri.UriUnreserved('&') by {
      var marks := "-_.!~*'()";
      assert forall i :: 0 <= i < |marks| ==> marks[i] != '&';
    }
    Uri.UriRoundTrip(username);
  }

  /** Different usernames get different avatars (with the same style). */
  lemma AvatarUrlInjective(a: string, b: string, style: Style)
    requires AvatarUrl(a, style) == AvatarUrl(b, style)
    ensures a == b
  {
    SeedRecoverable(a, style);
    SeedRecoverable(b, style);
  }

  /** `generateAvatarProps(username)` */
  datatype AvatarProps = AvatarProps(src: string, alt: string)

  function AvatarPropsFor(username: string): (p: AvatarProps)
    ensures p.src == AvatarUrl(username, DefaultStyle)
    ensures p.alt == username + "'s avatar"
    // the image's seed decodes back to the username the alt text begins with
    ensures |UrlHead(DefaultStyle)| <= |p.src| - |UrlSuffix|
    ensures Uri.DecodeUriComponent(p.src[|UrlHead(DefaultStyle)|..|p.src| - |UrlSuffix|]) == Some(username)
    ensures p.alt[..|username|] == username
  {
    SeedRecoverable(username, DefaultStyle);
    AvatarProps(AvatarUrl(username, DefaultStyle), username + "'s avatar")
  }

  /** The props name the username twice: in the alt text and, encoded,
      as the seed of the default-style image. */
  lemma PropsSeed(username: string)
    ensures var p := AvatarPropsFor(username);
      && p.src[..|UrlHead(Personas)|] == "https://api.dicebear.com/7.x/personas/svg?seed="
      && p.alt[..|username|] == username
  {
    var p := AvatarPropsFor(username);
    var h := UrlHead(Personas);
    assert p.src == h + (Uri.EncodeUriComponent(username) + UrlSuffix);
    assert p.src[..|h|] == h;
    PersonasHead();
    assert p.alt[..|username|] == username;
  }

  /** The head of the default style. */
  lemma PersonasHead()
    ensures UrlHead(Personas) == "https://api.dicebear.com/7.x/personas/svg?seed="
  {
  }

  // ---------------------------------------------------------------------
  // Initials avatar
  // ---------------------------------------------------------------------

  const Colors: seq<string> := [
    "#1976d2", "#dc004e", "#388e3c", "#f57c00", "#7b1fa2",
    "#303f9f", "#d32f2f", "#388e3c", "#f57c00", "#5d4037",
    "#455a64", "#e91e63", "#9c27b0", "#673ab7", "#3f51b5",
    "#2196f3", "#03a9f4", "#00bcd4", "#009688", "#4caf50"
  ]

  /** `charCodeAt(0)`: the first UTF-16 code unit, which for a character
      beyond the Basic Multilingual Plane is its high surrogate. */
  function CharCode(c: char): (n: nat)
    ensures n < 0x10000
    ensures (c as int) < 0x10000 ==> n == c as int
  {
    if (c as int) < 0x10000 then c as int else 0xD800 + ((c as int) - 0x10000) / 0x400
  }

  /** `username.charCodeAt(0) % colors.length`; `NaN` (no colour) for the
      empty name. */
  function ColorIndex(username: string): (r: Option<nat>)
    ensures r.Some? <==> username != []
    ensures r.Some? ==> r.value < |Colors| && r.value == CharCode(username[0]) % 20
  {
    if username == [] then None else Some(CharCode(username[0]) % |Colors|)
  }

  datatype InitialsAvatar = InitialsAvatar(children: string, backgroundColor: Option<string>)

  /** `generateInitialsAvatar(username)`: the first character uppercased
      (`charAt(0)` is `''` for the empty name) on the picked colour. */
  function InitialsAvatarFor(username: string): InitialsAvatar {
    match ColorIndex(username)
    case None => InitialsAvatar("", None)
    case Some(i) => InitialsAvatar([UpperChar(username[0])], Some(Colors[i]))
  }

  /** A non-empty name gets one of the 20 colours and its first letter,
      uppercased; the empty name gets neither. */
  lemma InitialsShape(username: string)
    ensures var a := InitialsAvatarFor(username);
      && (username == [] ==> a.children == [] && a.backgroundColor.None?)
      && (username != [] ==>
            |a.children| == 1 && a.children[0] == UpperChar(username[0])
            && a.backgroundColor.Some? && a.backgroundColor.value in Colors)
  {
  }

  /** Only the first character matters. */
  lemma InitialsFirstCharOnly(a: string, b: string)
    requires a != [] && b != [] && a[0] == b[0]
    ensures InitialsAvatarFor(a) == InitialsAvatarFor(b)
  {
  }

  /** Case matters to the colour but not to the initial: `a` and `A`
      have codes 97 and 65, so `alice` and `Alina` both show `A`, on
      colours 17 and 5. */
  lemma CaseChangesColor()
    ensures InitialsAvatarFor("alice").children == InitialsAvatarFor("Alina").children == "A"
    ensures ColorIndex("alice") == Some(17) && ColorIndex("Alina") == Some(5)
    ensures InitialsAvatarFor("alice").backgroundColor != InitialsAvatarFor("Alina").backgroundColor
  {
    assert "alice"[0] == 'a' && "Alina"[0] == 'A';
    assert Colors[17] == "#00bcd4" && Colors[5] == "#303f9f";
  }
}
