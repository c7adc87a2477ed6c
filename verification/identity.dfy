/**
  The identity a new connection is given by the server: a user id of the
  form "user_XYZ" and a colour from a fixed palette. The random draws are
  parameters: `rand.Intn(26)` three times for the id, `rand.Intn(8)` for the
  colour.
*/
module Identity {

  const UserIdPrefix: string := "user_"

  const Palette: seq<string> :=
    ["#FF6B6B", "#4ECDC4", "#45B7D1", "#FFA07A", "#98D8C8", "#F7DC6F", "#BB8FCE", "#85C1E9"]

  /** `string(rune(d + 65))` for a draw d in [0, 26). */
  function Letter(d: nat): (c: char)
    requires d < 26
  {
    (65 + d) as char
  }

  /** `generateUserID`: the prefix followed by three upper-case letters. */
  function GenerateUserId(d1: nat, d2: nat, d3: nat): (id: string)
    requires d1 < 26 && d2 < 26 && d3 < 26
    ensures |id| == 8 && id[..5] == UserIdPrefix
    ensures forall i :: 5 <= i < 8 ==> 'A' <= id[i] <= 'Z'
  {
    UserIdPrefix + [Letter(d1), Letter(d2), Letter(d3)]
  }

  /** The draws a generated id was made from. */
  function Draws(id: string): (r: (nat, nat, nat))
    requires |id| == 8
    requires forall i :: 5 <= i < 8 ==> 'A' <= id[i] <= 'Z'
  {
    (id[5] as int - 65, id[6] as int - 65, id[7] as int - 65)
  }

  /** An id determines its draws: different draws give different ids. */
  lemma UserIdRoundTrip(d1: nat, d2: nat, d3: nat)
    requires d1 < 26 && d2 < 26 && d3 < 26
    ensures Draws(GenerateUserId(d1, d2, d3)) == (d1, d2, d3)
  {
  }

  /** `generateColor`: one of the palette's eight hex colours. */
  function GenerateColor(d: nat): (color: string)
    requires d < |Palette|
    ensures color in Palette
    ensures |color| == 7 && color[0] == '#'
  {
    Palette[d]
  }
}
