/** The byte-packed TASKDIALOGCONFIG and TASKDIALOG_BUTTON layouts of package installerui. Pointers
    are 64-bit addresses. */
module TaskDialog {
  import opened Wrappers

  type Uint32 = x: int | 0 <= x < 0x1_0000_0000
  type Uint64 = x: int | 0 <= x < 0x1_0000_0000_0000_0000
  type Int32 = x: int | -0x8000_0000 <= x < 0x8000_0000

  // ---- little-endian integers -------------------------------------------------

  function LE(v: int, width: nat): (b: Bytes)
    requires v >= 0
    ensures |b| == width
  {
    if width == 0 then [] else [(v % 256) as Byte] + LE(v / 256, width - 1)
  }

  function FromLE(b: Bytes): (v: int)
    ensures v >= 0
  {
    if b == [] then 0 else b[0] as int + 256 * FromLE(b[1..])
  }

  function Pow256(n: nat): (p: int)
    ensures p > 0
  {
    if n == 0 then 1 else 256 * Pow256(n - 1)
  }

  lemma {:induction false} FromLEOfLE(v: int, width: nat)
    requires 0 <= v < Pow256(width)
    ensures FromLE(LE(v, width)) == v
  {
    if width > 0 {
      FromLEOfLE(v / 256, width - 1);
      assert LE(v, width)[1..] == LE(v / 256, width - 1);
    }
  }

  lemma {:induction false} LEOfFromLE(b: Bytes)
    ensures LE(FromLE(b), |b|) == b
    ensures FromLE(b) < Pow256(|b|)
  {
    if b != [] {
      LEOfFromLE(b[1..]);
      var rest := FromLE(b[1..]);
      assert (b[0] as int + 256 * rest) / 256 == rest && (b[0] as int + 256 * rest) % 256 == b[0] as int;
      assert b == [b[0]] + b[1..];
    }
  }

  /** One byte stands for itself, and what comes first weighs least. */
  lemma {:induction false} LittleEndian(x: Byte, a: Bytes, b: Bytes)
    ensures FromLE([x]) == x as int
    ensures FromLE(a + b) == FromLE(a) + Pow256(|a|) * FromLE(b)
  {
    assert [x][1..] == [];
    if a == [] {
      assert a + b == b;
    } else {
      assert (a + b)[1..] == a[1..] + b;
      LittleEndian(x, a[1..], b);
      var p, v := Pow256(|a| - 1), FromLE(b);
      assert 256 * (p * v) == (256 * p) * v;
    }
  }

  lemma Widths()
    ensures Pow256(4) == 0x1_0000_0000 && Pow256(8) == 0x1_0000_0000_0000_0000
  {
    assert Pow256(4) == 256 * 256 * 256 * 256;
    assert Pow256(8) == 256 * 256 * 256 * 256 * Pow256(4);
  }

  /** Go's conversions between int32 and uint32. */
  function Unsigned(x: Int32): Uint32 {
    if x < 0 then x + 0x1_0000_0000 else x
  }

  function Signed(x: Uint32): Int32 {
    if x >= 0x8000_0000 then x - 0x1_0000_0000 else x
  }

  /** binary.LittleEndian.PutUint32 and PutUint64. */
  method PutUint(buf: array<Byte>, off: nat, v: Uint64, width: nat)
    requires off + width <= buf.Length
    modifies buf
    ensures buf[..off + width] == old(buf[..off]) + LE(v, width)
  {
    var i, rest := 0, v;
    ghost var done: Bytes := [];
    while i < width
      invariant 0 <= i <= width && rest >= 0 && |done| == i
      invariant buf[..off + i] == old(buf[..off]) + done
      invariant LE(v, width) == done + LE(rest, width - i)
    {
      var low := (rest % 256) as Byte;
      buf[off + i] := low;
      assert buf[..off + (i + 1)] == buf[..off + i] + [low];
      done := done + [low];
      i, rest := i + 1, rest / 256;
    }
  }

  // ---- the configuration ------------------------------------------------------

  const CONFIG_SIZE: int := 160
  const FIELDS: nat := 24

  datatype Config = Config(
    hwndParent: Uint64,
    hInstance: Uint64,
    dwFlags: Uint32,
    dwCommonButtons: Uint32,
    pszWindowTitle: Uint64,
    mainIcon: Uint64,
    pszMainInstruction: Uint64,
    pszContent: Uint64,
    cButtons: Uint32,
    pButtons: Uint64,
    nDefaultButton: Int32,
    cRadioButtons: Uint32,
    pRadioButtons: Uint64,
    nDefaultRadioButton: Int32,
    pszVerificationText: Uint64,
    pszExpandedInformation: Uint64,
    pszExpandedControlText: Uint64,
    pszCollapsedControlText: Uint64,
    footerIcon: Uint64,
    pszFooter: Uint64,
    pfCallback: Uint64,
    lpCallbackData: Uint64,
    cxWidth: Uint32)

  /** The offset marshal writes field i at; the first field is the size of the structure. */
  function Offset(i: nat): nat {
    match i
    case 0 => 0   case 1 => 4   case 2 => 12  case 3 => 20  case 4 => 24  case 5 => 28
    case 6 => 36  case 7 => 44  case 8 => 52  case 9 => 60  case 10 => 64 case 11 => 72
    case 12 => 76 case 13 => 80 case 14 => 88 case 15 => 92 case 16 => 100 case 17 => 108
    case 18 => 116 case 19 => 124 case 20 => 132 case 21 => 140 case 22 => 148 case 23 => 156
    case _ => 160
  }

  predicate Is32(i: nat) {
    i == 0 || i == 3 || i == 4 || i == 9 || i == 11 || i == 12 || i == 14 || i == 23
  }

  function Width(i: nat): nat {
    if Is32(i) then 4 else 8
  }

  function FieldValue(c: Config, i: nat): (v: Uint64)
    ensures Is32(i) ==> v < 0x1_0000_0000
  {
    match i
    case 0 => CONFIG_SIZE
    case 1 => c.hwndParent
    case 2 => c.hInstance
    case 3 => c.dwFlags
    case 4 => c.dwCommonButtons
    case 5 => c.pszWindowTitle
    case 6 => c.mainIcon
    case 7 => c.pszMainInstruction
    case 8 => c.pszContent
    case 9 => c.cButtons
    case 10 => c.pButtons
    case 11 => Unsigned(c.nDefaultButton)
    case 12 => c.cRadioButtons
    case 13 => c.pRadioButtons
    case 14 => Unsigned(c.nDefaultRadioButton)
    case 15 => c.pszVerificationText
    case 16 => c.pszExpandedInformation
    case 17 => c.pszExpandedControlText
    case 18 => c.pszCollapsedControlText
    case 19 => c.footerIcon
    case 20 => c.pszFooter
    case 21 => c.pfCallback
    case 22 => c.lpCallbackData
    case 23 => c.cxWidth
    case _ => 0
  }

  function Concat(chunks: seq<Bytes>): Bytes {
    if chunks == [] then [] else Concat(chunks[..|chunks| - 1]) + chunks[|chunks| - 1]
  }

  function Fields(c: Config): (f: seq<Bytes>)
    ensures |f| == FIELDS
    ensures forall i :: 0 <= i < FIELDS ==> f[i] == LE(FieldValue(c, i), Width(i))
  {
    seq(FIELDS, i requires 0 <= i < FIELDS => LE(FieldValue(c, i), Width(i)))
  }

  /** TASKDIALOGCONFIG: the fields one after the other. */
  function Packed(c: Config): Bytes {
    Concat(Fields(c))
  }

  lemma ConcatSnoc(chunks: seq<Bytes>, i: nat)
    requires i < |chunks|
    ensures Concat(chunks[..i + 1]) == Concat(chunks[..i]) + chunks[i]
  {
    assert chunks[..i + 1][..i] == chunks[..i];
  }

  /** Writes field i at off, after the fields before it. */
  method PutField(buf: array<Byte>, off: nat, v: Uint64, width: nat, ghost c: Config, ghost i: nat)
    requires buf.Length == CONFIG_SIZE && i < FIELDS && off + width <= CONFIG_SIZE
    requires v == FieldValue(c, i) && width == Width(i)
    requires buf[..off] == Concat(Fields(c)[..i])
    modifies buf
    ensures buf[..off + width] == Concat(Fields(c)[..i + 1])
  {
    ConcatSnoc(Fields(c), i);
    PutUint(buf, off, v, width);
  }

  /** The fields are contiguous and cover the buffer. */
  lemma Contiguous(i: nat)
    requires i < FIELDS
    ensures Offset(i + 1) == Offset(i) + Width(i)
    ensures Offset(0) == 0 && Offset(FIELDS) == CONFIG_SIZE
  {
  }

  method Marshal(c: Config) returns (buf: array<Byte>)
    ensures fresh(buf) && buf[..] == Packed(c)
  {
    buf := new Byte[CONFIG_SIZE](_ => 0);
    MarshalWindow(buf, c);
    MarshalHeading(buf, c);
    MarshalButtons(buf, c);
    MarshalTexts(buf, c);
    MarshalFooter(buf, c);
    AllFields(c);
    assert buf[..] == buf[..160];
  }

  lemma AllFields(c: Config)
    ensures Concat(Fields(c)[..FIELDS]) == Packed(c)
  {
    assert Fields(c)[..FIELDS] == Fields(c);
  }

  /** The parts of marshal's list of writes. */
  method MarshalWindow(buf: array<Byte>, c: Config)
    requires buf.Length == CONFIG_SIZE
    modifies buf
    ensures buf[..28] == Concat(Fields(c)[..5])
  {
    assert buf[..0] == Concat(Fields(c)[..0]);
    PutField(buf, 0, CONFIG_SIZE, 4, c, 0);
    PutField(buf, 4, c.hwndParent, 8, c, 1);
    PutField(buf, 12, c.hInstance, 8, c, 2);
    PutField(buf, 20, c.dwFlags, 4, c, 3);
    PutField(buf, 24, c.dwCommonButtons, 4, c, 4);
  }

  method MarshalHeading(buf: array<Byte>, c: Config)
    requires buf.Length == CONFIG_SIZE && buf[..28] == Concat(Fields(c)[..5])
    modifies buf
    ensures buf[..60] == Concat(Fields(c)[..9])
  {
    PutField(buf, 28, c.pszWindowTitle, 8, c, 5);
    PutField(buf, 36, c.mainIcon, 8, c, 6);
    PutField(buf, 44, c.pszMainInstruction, 8, c, 7);
    PutField(buf, 52, c.pszContent, 8, c, 8);
  }

  method MarshalButtons(buf: array<Byte>, c: Config)
    requires buf.Length == CONFIG_SIZE && buf[..60] == Concat(Fields(c)[..9])
    modifies buf
    ensures buf[..92] == Concat(Fields(c)[..15])
  {
    PutField(buf, 60, c.cButtons, 4, c, 9);
    PutField(buf, 64, c.pButtons, 8, c, 10);
    PutField(buf, 72, Unsigned(c.nDefaultButton), 4, c, 11);
    PutField(buf, 76, c.cRadioButtons, 4, c, 12);
    PutField(buf, 80, c.pRadioButtons, 8, c, 13);
    PutField(buf, 88, Unsigned(c.nDefaultRadioButton), 4, c, 14);
  }

  method MarshalTexts(buf: array<Byte>, c: Config)
    requires buf.Length == CONFIG_SIZE && buf[..92] == Concat(Fields(c)[..15])
    modifies buf
    ensures buf[..124] == Concat(Fields(c)[..19])
  {
    PutField(buf, 92, c.pszVerificationText, 8, c, 15);
    PutField(buf, 100, c.pszExpandedInformation, 8, c, 16);
    PutField(buf, 108, c.pszExpandedControlText, 8, c, 17);
    PutField(buf, 116, c.pszCollapsedControlText, 8, c, 18);
  }

  method MarshalFooter(buf: array<Byte>, c: Config)
    requires buf.Length == CONFIG_SIZE && buf[..124] == Concat(Fields(c)[..19])
    modifies buf
    ensures buf[..160] == Concat(Fields(c)[..24])
  {
    PutField(buf, 124, c.footerIcon, 8, c, 19);
    PutField(buf, 132, c.pszFooter, 8, c, 20);
    PutField(buf, 140, c.pfCallback, 8, c, 21);
    PutField(buf, 148, c.lpCallbackData, 8, c, 22);
    PutField(buf, 156, c.cxWidth, 4, c, 23);
  }

  // ---- reading it back ----------------------------------------------------------

  lemma {:induction false} ConcatLength(c: Config, n: nat)
    requires n <= FIELDS
    ensures |Concat(Fields(c)[..n])| == Offset(n)
  {
    if n == 0 {
      Contiguous(0);
    } else {
      ConcatLength(c, n - 1);
      ConcatSnoc(Fields(c), n - 1);
      Contiguous(n - 1);
    }
  }

  lemma {:induction false} ConcatPrefix(chunks: seq<Bytes>, i: nat, n: nat)
    requires i <= n <= |chunks|
    ensures Concat(chunks[..i]) <= Concat(chunks[..n])
    decreases n - i
  {
    if i < n {
      ConcatPrefix(chunks, i, n - 1);
      ConcatSnoc(chunks, n - 1);
    }
  }

  /** Later fields do not disturb field i. */
  lemma ConcatAt(c: Config, n: nat, i: nat)
    requires i < n <= FIELDS
    ensures Offset(i) <= Offset(i + 1) <= |Concat(Fields(c)[..n])|
    ensures Concat(Fields(c)[..n])[Offset(i)..Offset(i + 1)] == Fields(c)[i]
  {
    ConcatLength(c, i);
    ConcatLength(c, i + 1);
    ConcatSnoc(Fields(c), i);
    ConcatPrefix(Fields(c), i + 1, n);
    SliceOfPrefix(Concat(Fields(c)[..i]), Fields(c)[i], Concat(Fields(c)[..n]));
  }

  lemma SliceOfPrefix(front: Bytes, field: Bytes, whole: Bytes)
    requires front + field <= whole
    ensures whole[|front|..|front + field|] == field
  {
    assert whole[|front|..|front + field|] == whole[..|front + field|][|front|..];
  }

  /** The unsigned number the native dialog finds at field i. */
  function Read(b: Bytes, i: nat): (v: Uint64)
    requires |b| == CONFIG_SIZE && i < FIELDS
    ensures Is32(i) ==> v < 0x1_0000_0000
  {
    Contiguous(i);
    OffsetsInBuffer(i);
    Widths();
    LEOfFromLE(b[Offset(i)..Offset(i + 1)]);
    FromLE(b[Offset(i)..Offset(i + 1)])
  }

  lemma OffsetsInBuffer(i: nat)
    requires i < FIELDS
    ensures 0 <= Offset(i) <= Offset(i + 1) <= CONFIG_SIZE
  {
  }

  function Unmarshal(b: Bytes): Config
    requires |b| == CONFIG_SIZE
  {
    Config(Read(b, 1), Read(b, 2), Read(b, 3), Read(b, 4), Read(b, 5), Read(b, 6), Read(b, 7), Read(b, 8),
           Read(b, 9), Read(b, 10), Signed(Read(b, 11)), Read(b, 12), Read(b, 13), Signed(Read(b, 14)),
           Read(b, 15), Read(b, 16), Read(b, 17), Read(b, 18), Read(b, 19), Read(b, 20), Read(b, 21),
           Read(b, 22), Read(b, 23))
  }

  lemma ReadPacked(c: Config, i: nat)
    requires i < FIELDS
    ensures |Packed(c)| == CONFIG_SIZE && Read(Packed(c), i) == FieldValue(c, i)
  {
    AllFields(c);
    ConcatLength(c, FIELDS);
    ConcatAt(c, FIELDS, i);
    Contiguous(i);
    Widths();
    FromLEOfLE(FieldValue(c, i), Width(i));
  }

  /** Reading at the declared offsets recovers every field. */
  lemma UnmarshalPacked(c: Config)
    ensures |Packed(c)| == CONFIG_SIZE && Read(Packed(c), 0) == CONFIG_SIZE && Unmarshal(Packed(c)) == c
  {
    forall i: nat | i < FIELDS
      ensures |Packed(c)| == CONFIG_SIZE && Read(Packed(c), i) == FieldValue(c, i)
    {
      ReadPacked(c, i);
    }
  }

  lemma FieldAt(c: Config, i: nat, from: nat, to: nat, v: int)
    requires i < FIELDS && from == Offset(i) && to == Offset(i + 1) && v == FieldValue(c, i)
    ensures |Packed(c)| == CONFIG_SIZE && from <= to <= CONFIG_SIZE
    ensures FromLE(Packed(c)[from..to]) == v
  {
    ReadPacked(c, i);
    OffsetsInBuffer(i);
  }

  /** Where the native dialog finds the window, its flags and its headings. */
  lemma WindowFields(c: Config)
    ensures var b := Packed(c);
            && |b| == 160 && FromLE(b[0..4]) == 160
            && FromLE(b[4..12]) == c.hwndParent && FromLE(b[12..20]) == c.hInstance
            && FromLE(b[20..24]) == c.dwFlags && FromLE(b[24..28]) == c.dwCommonButtons
            && FromLE(b[28..36]) == c.pszWindowTitle && FromLE(b[36..44]) == c.mainIcon
            && FromLE(b[44..52]) == c.pszMainInstruction && FromLE(b[52..60]) == c.pszContent
  {
    FieldAt(c, 0, 0, 4, CONFIG_SIZE);
    FieldAt(c, 1, 4, 12, c.hwndParent);
    FieldAt(c, 2, 12, 20, c.hInstance);
    FieldAt(c, 3, 20, 24, c.dwFlags);
    FieldAt(c, 4, 24, 28, c.dwCommonButtons);
    FieldAt(c, 5, 28, 36, c.pszWindowTitle);
    FieldAt(c, 6, 36, 44, c.mainIcon);
    FieldAt(c, 7, 44, 52, c.pszMainInstruction);
    FieldAt(c, 8, 52, 60, c.pszContent);
  }

  /** Its buttons; the default ones are written in two's complement. */
  lemma ButtonFields(c: Config)
    ensures var b := Packed(c);
            && |b| == 160
            && FromLE(b[60..64]) == c.cButtons && FromLE(b[64..72]) == c.pButtons
            && FromLE(b[72..76]) == c.nDefaultButton % 0x1_0000_0000
            && FromLE(b[76..80]) == c.cRadioButtons && FromLE(b[80..88]) == c.pRadioButtons
            && FromLE(b[88..92]) == c.nDefaultRadioButton % 0x1_0000_0000
  {
    FieldAt(c, 9, 60, 64, c.cButtons);
    FieldAt(c, 10, 64, 72, c.pButtons);
    FieldAt(c, 11, 72, 76, Unsigned(c.nDefaultButton));
    FieldAt(c, 12, 76, 80, c.cRadioButtons);
    FieldAt(c, 13, 80, 88, c.pRadioButtons);
    FieldAt(c, 14, 88, 92, Unsigned(c.nDefaultRadioButton));
  }

  lemma TextFields(c: Config)
    ensures var b := Packed(c);
            && |b| == 160
            && FromLE(b[92..100]) == c.pszVerificationText && FromLE(b[100..108]) == c.pszExpandedInformation
            && FromLE(b[108..116]) == c.pszExpandedControlText && FromLE(b[116..124]) == c.pszCollapsedControlText
  {
    FieldAt(c, 15, 92, 100, c.pszVerificationText);
    FieldAt(c, 16, 100, 108, c.pszExpandedInformation);
    FieldAt(c, 17, 108, 116, c.pszExpandedControlText);
    FieldAt(c, 18, 116, 124, c.pszCollapsedControlText);
  }

  lemma FooterFields(c: Config)
    ensures var b := Packed(c);
            && |b| == 160
            && FromLE(b[124..132]) == c.footerIcon && FromLE(b[132..140]) == c.pszFooter
            && FromLE(b[140..148]) == c.pfCallback && FromLE(b[148..156]) == c.lpCallbackData
            && FromLE(b[156..160]) == c.cxWidth
  {
    FieldAt(c, 19, 124, 132, c.footerIcon);
    FieldAt(c, 20, 132, 140, c.pszFooter);
    FieldAt(c, 21, 140, 148, c.pfCallback);
    FieldAt(c, 22, 148, 156, c.lpCallbackData);
    FieldAt(c, 23, 156, 160, c.cxWidth);
  }

  /** Every buffer of the right size that names its size is the layout of what is read from it: no byte
      is left out or read twice. */
  lemma PackedUnmarshal(b: Bytes)
    requires |b| == CONFIG_SIZE && Read(b, 0) == CONFIG_SIZE
    ensures Packed(Unmarshal(b)) == b
  {
    var c := Unmarshal(b);
    forall i: nat | i < FIELDS ensures FieldValue(c, i) == Read(b, i) {
      FieldRead(b, i);
    }
    PrefixRead(b, c, FIELDS);
    AllFields(c);
    Contiguous(0);
    assert b[..Offset(FIELDS)] == b;
  }

  lemma FieldRead(b: Bytes, i: nat)
    requires |b| == CONFIG_SIZE && i < FIELDS && Read(b, 0) == CONFIG_SIZE
    ensures FieldValue(Unmarshal(b), i) == Read(b, i)
  {
    assert Unsigned(Signed(Read(b, 11))) == Read(b, 11);
    assert Unsigned(Signed(Read(b, 14))) == Read(b, 14);
  }

  lemma FieldIsSlice(b: Bytes, c: Config, i: nat)
    requires |b| == CONFIG_SIZE && i < FIELDS && FieldValue(c, i) == Read(b, i)
    ensures 0 <= Offset(i) <= Offset(i + 1) <= CONFIG_SIZE
    ensures Fields(c)[i] == b[Offset(i)..Offset(i + 1)]
  {
    OffsetsInBuffer(i);
    Contiguous(i);
    LEOfFromLE(b[Offset(i)..Offset(i + 1)]);
  }

  lemma {:induction false} PrefixRead(b: Bytes, c: Config, n: nat)
    requires |b| == CONFIG_SIZE && n <= FIELDS
    requires forall i: nat :: i < FIELDS ==> FieldValue(c, i) == Read(b, i)
    ensures Offset(n) <= CONFIG_SIZE && Concat(Fields(c)[..n]) == b[..Offset(n)]
  {
    if n > 0 {
      PrefixRead(b, c, n - 1);
      ConcatSnoc(Fields(c), n - 1);
      FieldIsSlice(b, c, n - 1);
      Rejoin(b, Offset(n - 1), Offset(n));
    } else {
      Contiguous(0);
    }
  }

  lemma Rejoin(b: Bytes, lo: nat, hi: nat)
    requires lo <= hi <= |b|
    ensures b[..hi] == b[..lo] + b[lo..hi]
  {
  }

  // ---- buttons --------------------------------------------------------------------

  const BUTTON_SIZE: int := 12

  datatype Button = Button(nButtonID: Int32, pszButtonText: Uint64)

  function PackedButton(b: Button): (r: Bytes)
    ensures |r| == BUTTON_SIZE
  {
    LE(Unsigned(b.nButtonID), 4) + LE(b.pszButtonText, 8)
  }

  /** An array of TASKDIALOG_BUTTON. */
  function PackedButtons(buttons: seq<Button>): (r: Bytes)
    ensures |r| == |buttons| * BUTTON_SIZE
  {
    if buttons == [] then []
    else PackedButtons(buttons[..|buttons| - 1]) + PackedButton(buttons[|buttons| - 1])
  }

  /** One round of the loop of packTaskDialogButtons. */
  method PutButton(buf: array<Byte>, off: nat, b: Button)
    requires off + BUTTON_SIZE <= buf.Length
    modifies buf
    ensures buf[..off + BUTTON_SIZE] == old(buf[..off]) + PackedButton(b)
  {
    ghost var before := buf[..off];
    PutUint(buf, off, Unsigned(b.nButtonID), 4);
    PutUint(buf, off + 4, b.pszButtonText, 8);
    Assoc(before, LE(Unsigned(b.nButtonID), 4), LE(b.pszButtonText, 8));
  }

  lemma Assoc(a: Bytes, b: Bytes, c: Bytes)
    ensures a + b + c == a + (b + c)
  {
  }

  method PackTaskDialogButtons(buttons: seq<Button>) returns (buf: array<Byte>)
    ensures fresh(buf) && buf[..] == PackedButtons(buttons)
  {
    buf := new Byte[|buttons| * BUTTON_SIZE](_ => 0);
    var i := 0;
    while i < |buttons|
      invariant 0 <= i <= |buttons|
      invariant buf[..i * BUTTON_SIZE] == PackedButtons(buttons[..i])
    {
      var off := i * BUTTON_SIZE;
      var b := buttons[i];
      PutButton(buf, off, b);
      assert buttons[..i + 1] == buttons[..i] + [b];
      PackedSnoc(buttons[..i], b);
      i := i + 1;
    }
    assert buttons[..i] == buttons && buf[..i * BUTTON_SIZE] == buf[..];
  }

  function ReadButton(b: Bytes): Button
    requires |b| == BUTTON_SIZE
  {
    Widths();
    LEOfFromLE(b[..4]);
    LEOfFromLE(b[4..]);
    Button(Signed(FromLE(b[..4])), FromLE(b[4..]))
  }

  /** The buttons the native dialog finds in an array of n. */
  function ReadButtons(b: Bytes, n: nat): (buttons: seq<Button>)
    requires |b| == n * BUTTON_SIZE
    ensures |buttons| == n
  {
    if n == 0 then []
    else
      ReadButtons(b[..(n - 1) * BUTTON_SIZE], n - 1) + [ReadButton(b[(n - 1) * BUTTON_SIZE..])]
  }

  /** Any list of buttons of any length is read back, negative identifiers included. */
  lemma {:induction false} ReadPackedButtons(buttons: seq<Button>)
    ensures ReadButtons(PackedButtons(buttons), |buttons|) == buttons
  {
    if buttons != [] {
      var n := |buttons|;
      var front, last := buttons[..n - 1], buttons[n - 1];
      ReadPackedButtons(front);
      var b := PackedButtons(buttons);
      assert b[..(n - 1) * BUTTON_SIZE] == PackedButtons(front);
      assert b[(n - 1) * BUTTON_SIZE..] == PackedButton(last);
      ReadPackedButton(last);
    }
  }

  /** Where the native dialog finds button i. */
  lemma {:induction false} ButtonAt(buttons: seq<Button>, i: nat)
    requires i < |buttons|
    ensures var b := PackedButtons(buttons);
            && |b| == 12 * |buttons|
            && FromLE(b[12 * i..12 * i + 4]) == buttons[i].nButtonID % 0x1_0000_0000
            && FromLE(b[12 * i + 4..12 * i + 12]) == buttons[i].pszButtonText
  {
    var n := |buttons| - 1;
    var b, front, last := PackedButtons(buttons), PackedButtons(buttons[..n]), PackedButton(buttons[n]);
    assert b == front + last;
    if i < n {
      ButtonAt(buttons[..n], i);
      assert b[12 * i..12 * i + 4] == front[12 * i..12 * i + 4];
      assert b[12 * i + 4..12 * i + 12] == front[12 * i + 4..12 * i + 12];
    } else {
      Widths();
      FromLEOfLE(Unsigned(buttons[n].nButtonID), 4);
      FromLEOfLE(buttons[n].pszButtonText, 8);
      assert b[12 * i..12 * i + 4] == LE(Unsigned(buttons[n].nButtonID), 4);
      assert b[12 * i + 4..12 * i + 12] == LE(buttons[n].pszButtonText, 8);
    }
  }

  lemma ReadPackedButton(b: Button)
    ensures ReadButton(PackedButton(b)) == b
  {
    Widths();
    FromLEOfLE(Unsigned(b.nButtonID), 4);
    FromLEOfLE(b.pszButtonText, 8);
    assert PackedButton(b)[..4] == LE(Unsigned(b.nButtonID), 4);
    assert PackedButton(b)[4..] == LE(b.pszButtonText, 8);
  }

  /** And every array of whole buttons is the packing of what is read from it. */
  lemma {:induction false} PackedReadButtons(b: Bytes, n: nat)
    requires |b| == n * BUTTON_SIZE
    ensures PackedButtons(ReadButtons(b, n)) == b
  {
    if n > 0 {
      var at := (n - 1) * BUTTON_SIZE;
      var front, last := b[..at], b[at..];
      Halves(b, at);
      PackedReadButtons(front, n - 1);
      PackedSnoc(ReadButtons(front, n - 1), ReadButton(last));
      PackedReadButton(last);
    }
  }

  lemma Halves(b: Bytes, at: nat)
    requires at <= |b|
    ensures b[..at] + b[at..] == b
  {
  }

  lemma PackedSnoc(buttons: seq<Button>, b: Button)
    ensures PackedButtons(buttons + [b]) == PackedButtons(buttons) + PackedButton(b)
  {
    assert (buttons + [b])[..|buttons|] == buttons;
  }

  lemma PackedReadButton(b: Bytes)
    requires |b| == BUTTON_SIZE
    ensures PackedButton(ReadButton(b)) == b
  {
    Widths();
    LEOfFromLE(b[..4]);
    LEOfFromLE(b[4..]);
    assert b[..4] + b[4..] == b;
  }
}
