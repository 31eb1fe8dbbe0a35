/** File names of src/main.cpp: `gen_filename` (the snapshot data files
    `./data/NNNN.dat` and `./data/NNNN.txt`) and `gen_image` (the rendered
    images `./img/NNNN.png`). Both left-pad the decimal frame number with
    zeros to at least four characters. */
module FileNames {
  import opened Outcomes

  predicate IsDigit(c: char) {
    '0' <= c <= '9'
  }

  predicate AllDigits(s: string) {
    forall i :: 0 <= i < |s| ==> IsDigit(s[i])
  }

  function DigitChar(d: nat): (c: char)
    requires d < 10
    ensures IsDigit(c) && c as int - '0' as int == d
  {
    ('0' as int + d) as char
  }

  /** The decimal text of `n` as `std::to_string` writes an unsigned value:
      at least one digit, and no leading zero unless the text is "0". */
  function Decimal(n: nat): (s: string)
    ensures 1 <= |s| && AllDigits(s)
    ensures |s| > 1 ==> s[0] != '0'
    ensures n < 10 <==> |s| == 1
    decreases n
  {
    if n < 10 then [DigitChar(n)] else Decimal(n / 10) + [DigitChar(n % 10)]
  }

  /** The number a string of digits denotes; leading zeros add nothing. */
  function Value(s: string): nat
    requires AllDigits(s)
  {
    if s == [] then 0 else Value(s[..|s| - 1]) * 10 + (s[|s| - 1] as int - '0' as int)
  }

  function Zeros(k: nat): (z: string)
    ensures |z| == k && AllDigits(z)
  {
    seq(k, _ => '0')
  }

  /** Inserts "0" at the front while the text is shorter than four
      characters. */
  function PadTo4(s: string): string
    decreases 4 - |s|
  {
    if |s| < 4 then PadTo4("0" + s) else s
  }

  /** The frame field of both kinds of file name: the decimal text of the
      frame, padded with zeros to four characters. */
  function Padded(frame: nat): string {
    PadTo4(Decimal(frame))
  }

  function Extension(binary: bool): string {
    if binary then ".dat" else ".txt"
  }

  /** The path `gen_filename(frame, binary)` returns. */
  function DataFileName(frame: nat, binary: bool): string {
    "./data/" + Padded(frame) + Extension(binary)
  }

  /** The path `gen_image(frame)` returns. */
  function ImageFileName(frame: nat): string {
    "./img/" + Padded(frame) + ".png"
  }

  /** The padding loop shared by `gen_filename` and `gen_image`: start from
      the decimal text and insert "0" at the front while it is shorter than
      four characters. */
  method PadFrame(frame: nat) returns (field: string)
    ensures field == Padded(frame)
  {
    field := Decimal(frame);
    while |field| < 4
      invariant PadTo4(field) == Padded(frame)
      decreases 4 - |field|
    {
      field := "0" + field;
    }
  }

  method GenFilename(frame: nat, binary: bool) returns (name: string)
    ensures name == DataFileName(frame, binary)
  {
    var field := PadFrame(frame);
    name := "./data/" + field;
    if binary {
      name := name + ".dat";
    } else {
      name := name + ".txt";
    }
  }

  method GenImage(frame: nat) returns (name: string)
    ensures name == ImageFileName(frame)
  {
    var field := PadFrame(frame);
    name := "./img/" + field;
    name := name + ".png";
  }

  /** Padding puts `4 - |s|` zeros in front of a short text and leaves a
      long one alone. */
  lemma {:induction false} PadTo4Shape(s: string)
    ensures PadTo4(s) == Zeros(if |s| < 4 then 4 - |s| else 0) + s
    decreases 4 - |s|
  {
    if |s| < 4 {
      PadTo4Shape("0" + s);
      assert Zeros(4 - |s| - 1) + ("0" + s) == Zeros(4 - |s|) + s;
    } else {
      assert Zeros(0) + s == s;
    }
  }

  /** The padded field is all digits, has length max(4, digits of the frame),
      and is the decimal text behind a run of zeros. */
  lemma PaddedShape(frame: nat)
    ensures AllDigits(Padded(frame))
    ensures |Padded(frame)| == if |Decimal(frame)| < 4 then 4 else |Decimal(frame)|
    ensures Padded(frame) == Zeros(|Padded(frame)| - |Decimal(frame)|) + Decimal(frame)
  {
    PadTo4Shape(Decimal(frame));
  }

  /** Drops leading zeros but keeps the last character, so "0000" becomes "0". */
  function StripZeros(s: string): string {
    if |s| > 1 && s[0] == '0' then StripZeros(s[1..]) else s
  }

  lemma {:induction false} StripZerosPrefix(k: nat, d: string)
    requires 1 <= |d| && (|d| > 1 ==> d[0] != '0')
    ensures StripZeros(Zeros(k) + d) == d
  {
    if k > 0 {
      assert (Zeros(k) + d)[1..] == Zeros(k - 1) + d;
      StripZerosPrefix(k - 1, d);
    }
  }

  /** Stripping the leading zeros from the padded field gives back the
      decimal text of the frame. */
  lemma StripPadded(frame: nat)
    ensures StripZeros(Padded(frame)) == Decimal(frame)
  {
    PaddedShape(frame);
    StripZerosPrefix(|Padded(frame)| - |Decimal(frame)|, Decimal(frame));
  }

  lemma {:induction false} ValueOfDecimal(n: nat)
    ensures Value(Decimal(n)) == n
    decreases n
  {
    if n >= 10 {
      var d := Decimal(n);
      assert d[..|d| - 1] == Decimal(n / 10);
      ValueOfDecimal(n / 10);
    }
  }

  lemma {:induction false} ValueOfZeros(k: nat)
    ensures Value(Zeros(k)) == 0
  {
    if k > 0 {
      assert Zeros(k)[..k - 1] == Zeros(k - 1);
      ValueOfZeros(k - 1);
    }
  }

  lemma {:induction false} ValueIgnoresZeros(k: nat, s: string)
    requires AllDigits(s)
    ensures Value(Zeros(k) + s) == Value(s)
    decreases |s|
  {
    if s == [] {
      assert Zeros(k) + s == Zeros(k);
      ValueOfZeros(k);
    } else {
      var t := Zeros(k) + s;
      assert t[..|t| - 1] == Zeros(k) + s[..|s| - 1];
      ValueIgnoresZeros(k, s[..|s| - 1]);
    }
  }

  /** The padded field denotes the frame number. */
  lemma ValueOfPadded(frame: nat)
    ensures AllDigits(Padded(frame)) && Value(Padded(frame)) == frame
  {
    PaddedShape(frame);
    ValueIgnoresZeros(|Padded(frame)| - |Decimal(frame)|, Decimal(frame));
    ValueOfDecimal(frame);
  }

  /** Reads a name of the form `dir` + digits + a four-character extension
      back into the frame number and the extension. */
  function SplitName(name: string, dir: string): (r: Option<(nat, string)>)
    ensures r.Some? ==> |r.value.1| == 4
  {
    if |name| < |dir| + 4 || name[..|dir|] != dir then None
    else
      var field := name[|dir|..|name| - 4];
      if AllDigits(field) && field != [] then Some((Value(field), name[|name| - 4..])) else None
  }

  /** Round trip: a name built from a padded frame splits back into that
      frame and extension. */
  lemma SplitPaddedName(dir: string, frame: nat, ext: string)
    requires |ext| == 4
    ensures SplitName(dir + Padded(frame) + ext, dir) == Some((frame, ext))
  {
    var name := dir + Padded(frame) + ext;
    PaddedShape(frame);
    assert name[..|dir|] == dir;
    assert name[|dir|..|name| - 4] == Padded(frame);
    assert name[|name| - 4..] == ext;
    ValueOfPadded(frame);
  }

  /** The data file name determines the frame and the kind of file. */
  lemma DataFileNameRoundTrip(frame: nat, binary: bool)
    ensures SplitName(DataFileName(frame, binary), "./data/") == Some((frame, Extension(binary)))
  {
    SplitPaddedName("./data/", frame, Extension(binary));
  }

  lemma DataFileNameInjective(f1: nat, b1: bool, f2: nat, b2: bool)
    requires DataFileName(f1, b1) == DataFileName(f2, b2)
    ensures f1 == f2 && b1 == b2
  {
    DataFileNameRoundTrip(f1, b1);
    DataFileNameRoundTrip(f2, b2);
  }

  /** The image file name determines the frame. */
  lemma ImageFileNameRoundTrip(frame: nat)
    ensures SplitName(ImageFileName(frame), "./img/") == Some((frame, ".png"))
  {
    SplitPaddedName("./img/", frame, ".png");
  }

  lemma ImageFileNameInjective(f1: nat, f2: nat)
    requires ImageFileName(f1) == ImageFileName(f2)
    ensures f1 == f2
  {
    ImageFileNameRoundTrip(f1);
    ImageFileNameRoundTrip(f2);
  }
}
