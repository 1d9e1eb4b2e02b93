/**
 * The decoder test of the repository (test_decode.py), stated as a lemma:
 * the sample scroll-text line decodes to the text the display shows.
 * The steps go character by character, then byte by byte.
 */
module TestDecode {
  import opened Py
  import opened Decoders

  /** The scroll-text line of the receiver's display decodes to "   APPLETV    ". */
  lemma DecodeFlAppleTv()
    ensures DecodeFl("FL022020204150504C45545620202020") == Ok(Some("   APPLETV    "))
  {
    SampleLine("FL022020204150504C45545620202020");
  }

  lemma SampleLine(s: string)
    requires s == "FL022020204150504C45545620202020"
    ensures DecodeFl(s) == Ok(Some("   APPLETV    "))
  {
    SampleLine0(s);
    SampleLine1(s);
    SampleLine2(s);
    SampleLine3(s);
    assert StartsWith(s, "FL") by { assert s[..2] == ['F', 'L']; }
    var p := FlPayload(s);
    assert |p| == 28;
    forall k | 0 <= k < 28 ensures p[k] == s[k + 4] {
      assert p[k] == From(s, 2)[k + 2];
    }
    SamplePayload(p);
    var bs := FromHex(p).value;
    SampleBytes(bs);
    SampleText(AsciiDecode(bs).value);
  }

  lemma SampleLine0(s: string)
    requires s == "FL022020204150504C45545620202020"
    ensures |s| == 32 && s[0] == 'F' && s[1] == 'L' && s[2] == '0' && s[3] == '2' && s[4] == '2' && s[5] == '0' && s[6] == '2' && s[7] == '0'
  {
  }

  lemma SampleLine1(s: string)
    requires s == "FL022020204150504C45545620202020"
    ensures |s| == 32 && s[8] == '2' && s[9] == '0' && s[10] == '4' && s[11] == '1' && s[12] == '5' && s[13] == '0' && s[14] == '5' && s[15] == '0'
  {
  }

  lemma SampleLine2(s: string)
    requires s == "FL022020204150504C45545620202020"
    ensures |s| == 32 && s[16] == '4' && s[17] == 'C' && s[18] == '4' && s[19] == '5' && s[20] == '5' && s[21] == '4' && s[22] == '5' && s[23] == '6'
  {
  }

  lemma SampleLine3(s: string)
    requires s == "FL022020204150504C45545620202020"
    ensures |s| == 32 && s[24] == '2' && s[25] == '0' && s[26] == '2' && s[27] == '0' && s[28] == '2' && s[29] == '0' && s[30] == '2' && s[31] == '0'
  {
  }

  lemma SamplePayload(p: string)
    requires |p| == 28 && p[0] == '2' && p[1] == '0' && p[2] == '2' && p[3] == '0' && p[4] == '2' && p[5] == '0' && p[6] == '4' && p[7] == '1' && p[8] == '5' && p[9] == '0' && p[10] == '5' && p[11] == '0' && p[12] == '4' && p[13] == 'C' && p[14] == '4' && p[15] == '5' && p[16] == '5' && p[17] == '4' && p[18] == '5' && p[19] == '6' && p[20] == '2' && p[21] == '0' && p[22] == '2' && p[23] == '0' && p[24] == '2' && p[25] == '0' && p[26] == '2' && p[27] == '0'
    ensures FromHex(p).Ok? && var bs := FromHex(p).value; |bs| == 14 && bs[0] == 32 && bs[1] == 32 && bs[2] == 32 && bs[3] == 65 && bs[4] == 80 && bs[5] == 80 && bs[6] == 76 && bs[7] == 69 && bs[8] == 84 && bs[9] == 86 && bs[10] == 32 && bs[11] == 32 && bs[12] == 32 && bs[13] == 32
  {
    assert forall i :: 0 <= i < |p| ==> IsHexDigit(p[i]) && !IsSpace(p[i]);
    FromHexNoSpace(p);
    FromHexValues(p);
  }

  lemma SampleBytes(bs: seq<byte>)
    requires |bs| == 14 && bs[0] == 32 && bs[1] == 32 && bs[2] == 32 && bs[3] == 65 && bs[4] == 80 && bs[5] == 80 && bs[6] == 76 && bs[7] == 69 && bs[8] == 84 && bs[9] == 86 && bs[10] == 32 && bs[11] == 32 && bs[12] == 32 && bs[13] == 32
    ensures IsAscii(bs) && var t := AsciiDecode(bs).value; |t| == 14 && t[0] == ' ' && t[1] == ' ' && t[2] == ' ' && t[3] == 'A' && t[4] == 'P' && t[5] == 'P' && t[6] == 'L' && t[7] == 'E' && t[8] == 'T' && t[9] == 'V' && t[10] == ' ' && t[11] == ' ' && t[12] == ' ' && t[13] == ' '
  {
  }

  lemma SampleText(t: string)
    requires |t| == 14 && t[0] == ' ' && t[1] == ' ' && t[2] == ' ' && t[3] == 'A' && t[4] == 'P' && t[5] == 'P' && t[6] == 'L' && t[7] == 'E' && t[8] == 'T' && t[9] == 'V' && t[10] == ' ' && t[11] == ' ' && t[12] == ' ' && t[13] == ' '
    ensures t == "   APPLETV    "
  {
  }
}
