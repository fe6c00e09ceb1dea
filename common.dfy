/** Types shared by the installer modules: an optional value, the C integer
    widths the library works with, and the C-string view of a character
    sequence (everything up to the first NUL). */
module Common {

  datatype Option<+T> = None | Some(value: T) {
    function GetOr(default: T): T {
      match this
      case Some(v) => v
      case None => default
    }
  }

  type byte = x: int | 0 <= x < 0x100
  type uint16 = x: int | 0 <= x < 0x1_0000
  type uint32 = x: int | 0 <= x < 0x1_0000_0000

  const NUL: char := 0 as char

  /** INF_NAME: the inf file written into the driver directory and passed
      to the installer. */
  const InfName: string := "libusb-device.inf"

  /** The characters `strlen` counts: the longest prefix of `s` free of NUL. */
  function CString(s: string): (r: string)
    ensures |r| <= |s| && r == s[..|r|]
    ensures forall i :: 0 <= i < |r| ==> r[i] != NUL
    ensures |r| == |s| || s[|r|] == NUL
  {
    if s == [] || s[0] == NUL then [] else [s[0]] + CString(s[1..])
  }
}
