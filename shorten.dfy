/** `shorten`, the truncation helper defined identically in the backdoor and
    the actor library, and the backdoor's request and response holders. */
module Shorten {
  import opened Wrappers

  /** `shorten(text, width, placeholder)`: text empty or short enough stays,
      anything longer keeps as much of its head as leaves room for the
      placeholder. */
  function Shorten(text: string, width: int, placeholder: string): (r: string)
    ensures text == [] || |text| <= width ==> r == text
    ensures text != [] && |text| > width ==> exists n :: 0 <= n <= |text| && r == text[..n] + placeholder
    ensures |r| <= MaxLength(width, placeholder)
  {
    if text == [] || |text| <= width then text
    else
      var n := if width - |placeholder| > 0 then width - |placeholder| else 0;
      text[..n] + placeholder
  }

  /** The length a shortened text can reach: the larger of width and the
      placeholder's length. */
  function MaxLength(width: int, placeholder: string): int {
    if width > |placeholder| then width else |placeholder|
  }

  /** `shorten` with the default placeholder `'...'`. */
  function ShortenDefault(text: string, width: int): string {
    Shorten(text, width, "...")
  }

  /** A text that was cut is exactly as long as width whenever width leaves
      room for the placeholder, and is the placeholder alone otherwise. */
  lemma {:induction false} ShortenLength(text: string, width: int, placeholder: string)
    ensures text != [] && |text| > width && width >= |placeholder| ==> |Shorten(text, width, placeholder)| == width
    ensures text != [] && |text| > width && width < |placeholder| ==> Shorten(text, width, placeholder) == placeholder
  {
  }

  /** The doctests: width 8 keeps five characters and the dots, width 9
      keeps all nine. */
  lemma {:induction false} ShortenDoctest()
    ensures ShortenDefault("123456789", 8) == "12345..."
    ensures ShortenDefault("123456789", 9) == "123456789"
  {
    assert "123456789"[..5] == "12345";
  }

  /** Shortening a result again with the same width changes nothing when the
      placeholder fits in the width. */
  lemma {:induction false} ShortenIdempotent(text: string, width: int, placeholder: string)
    requires width >= |placeholder|
    ensures Shorten(Shorten(text, width, placeholder), width, placeholder) == Shorten(text, width, placeholder)
  {
  }

  /** `BackdoorRequest(command, params=None)`: params default to an empty
      mapping, modelled as a map from names to their printed values. */
  datatype BackdoorRequest = BackdoorRequest(command: string, params: map<string, string>)

  function NewBackdoorRequest(command: string, params: Option<map<string, string>>): (r: BackdoorRequest)
    ensures r.command == command
    ensures params.None? ==> r.params == map[]
    ensures params.Some? ==> r.params == params.value
  {
    BackdoorRequest(command, if params.None? then map[] else params.value)
  }

  /** `BackdoorResponse(ok, content)`. */
  datatype BackdoorResponse = BackdoorResponse(ok: bool, content: string)
}
