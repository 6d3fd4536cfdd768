/** Utils.GenerateUniqueId: a prefix of a GUID's dash-free text.  The GUID
    is an input (a 128-bit value); its "N" format is its 32 lower-case hex
    digits. */
module Utils {
  import opened Common

  /** A 128-bit GUID value. */
  type Guid = g: nat | g < 0x1_0000_0000_0000_0000_0000_0000_0000_0000

  const HexDigits := "0123456789abcdef"

  /** The last `digits` hex digits of g, most significant first. */
  function HexText(g: nat, digits: nat): (s: string)
    ensures |s| == digits
    ensures forall k :: 0 <= k < |s| ==> s[k] in HexDigits
  {
    if digits == 0 then ""
    else HexText(g / 16, digits - 1) + [HexDigits[g % 16]]
  }

  /** The "N" format of a GUID: 32 hex digits and no separators. */
  function FormatN(guid: Guid): (s: string)
    ensures |s| == 32
  {
    HexText(guid, 32)
  }

  /** The "N" text never contains a dash. */
  lemma FormatNHasNoDash(guid: Guid)
    ensures '-' !in FormatN(guid)
  {
    var s := FormatN(guid);
    forall k | 0 <= k < |s|
      ensures s[k] != '-'
    {
      assert s[k] in HexDigits;
    }
  }

  /** GenerateUniqueId(length): a length beyond the GUID text is clamped to
      it; a negative length makes Substring raise
      ArgumentOutOfRangeException. */
  function GenerateUniqueId(guid: Guid, length: int): (r: Outcome<string>)
    ensures length < 0 <==> r.Raise?
    ensures r.Raise? ==> r.error.kind == ArgumentOutOfRange
    ensures r.Ok? ==>
      && |r.value| == (if length < 32 then length else 32)
      && StartsWith(FormatN(guid), r.value)
      && '-' !in r.value
  {
    var guidString := FormatN(guid);
    var n := if length > |guidString| then |guidString| else length;
    if n < 0 then Raise(Exception(ArgumentOutOfRange, "length"))
    else
      FormatNHasNoDash(guid);
      Ok(guidString[..n])
  }
}
