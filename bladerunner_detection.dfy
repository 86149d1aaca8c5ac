/**
 * The save-state part of BladeRunnerMetaEngine: which meta-engine features it
 * reports, how a slot becomes a save-file name ("<target>.%03d") and back, and
 * what listSaves and querySaveMetaInfos report. The save-file manager is a map
 * from file name to what opening and reading that file yields.
 */
module BladeRunnerDetection {
  import opened Wrappers

  /** MetaEngineFeature; OtherMetaEngineFeature stands for every value not named here. */
  datatype MetaEngineFeature =
    | kSupportsListSaves | kSupportsLoadingDuringStartup | kSupportsDeleteSave
    | kSavesSupportMetaInfo | kSavesSupportThumbnail | kSimpleSavesNames
    | kSavesSupportCreationDate | kSavesSupportPlayTime
    | OtherMetaEngineFeature(code: int)

  /** BladeRunnerMetaEngine::hasFeature: exactly the six listed features. */
  function HasFeature(f: MetaEngineFeature): (r: bool)
    ensures r <==> f in {kSupportsListSaves, kSupportsLoadingDuringStartup, kSupportsDeleteSave,
                         kSavesSupportMetaInfo, kSavesSupportThumbnail, kSimpleSavesNames}
  {
    f == kSupportsListSaves || f == kSupportsLoadingDuringStartup || f == kSupportsDeleteSave
    || f == kSavesSupportMetaInfo || f == kSavesSupportThumbnail || f == kSimpleSavesNames
  }

  /**
   * getMaximumSaveSlot: the largest slot whose %03d form still fits the three '#'
   * of the listing pattern; the slot after it needs a fourth digit.
   */
  function MaximumSaveSlot(): (n: nat)
    ensures |FormatSlot(n)| == 3 && AllDigits(FormatSlot(n))
    ensures |FormatSlot(n + 1)| > 3
  {
    999
  }

  predicate IsDigit(c: char) {
    '0' <= c <= '9'
  }

  predicate AllDigits(s: string) {
    forall k | 0 <= k < |s| :: IsDigit(s[k])
  }

  function DigitChar(d: int): (c: char)
    requires 0 <= d <= 9
    ensures IsDigit(c) && c as int - '0' as int == d
  {
    ('0' as int + d) as char
  }

  /** The numeric value of a string of digits, most significant first. */
  function DigitsValue(s: string): (v: nat)
    requires AllDigits(s)
  {
    if |s| == 0 then 0
    else DigitsValue(s[..|s| - 1]) * 10 + (s[|s| - 1] as int - '0' as int)
  }

  /** The shortest decimal representation of a natural number. */
  function Decimal(n: nat): (s: string)
    ensures |s| >= 1 && AllDigits(s)
    ensures n < 10 ==> |s| == 1
    ensures n < 100 ==> |s| <= 2
    ensures n < 1000 ==> |s| <= 3
    ensures n >= 10 ==> |s| >= 2
    ensures n >= 100 ==> |s| >= 3
    ensures n >= 1000 ==> |s| >= 4
    decreases n
  {
    if n < 10 then [DigitChar(n)] else Decimal(n / 10) + [DigitChar(n % 10)]
  }

  /** Zeros in front until the string is `width` long. */
  function ZeroPad(s: string, width: nat): (p: string)
    requires AllDigits(s)
    ensures AllDigits(p)
    ensures |p| == if |s| >= width then |s| else width
    decreases width - |s|
  {
    if |s| >= width then s else ZeroPad("0" + s, width)
  }

  /** printf's %03d: at least three characters, the sign counting as one of them. */
  function FormatSlot(slot: int): (s: string)
    ensures 0 <= slot <= 999 ==> |s| == 3 && AllDigits(s)
    ensures slot >= 1000 ==> |s| >= 4
    ensures slot < 0 ==> |s| >= 3 && s[0] == '-'
  {
    if slot >= 0 then ZeroPad(Decimal(slot), 3) else "-" + ZeroPad(Decimal(-slot), 2)
  }

  /** The save file of a slot, as removeSaveState and querySaveMetaInfos name it. */
  function SaveFileName(target: string, slot: int): (name: string)
    ensures |name| >= |target| + 4 && name[..|target|] == target && name[|target|] == '.'
    ensures 0 <= slot <= MaximumSaveSlot() ==> MatchesSavePattern(target, name)
  {
    target + "." + FormatSlot(slot)
  }

  /** The names listSavefiles returns for the pattern "<target>.###": '#' matches one digit. */
  predicate MatchesSavePattern(target: string, name: string) {
    && |name| == |target| + 4
    && name[..|target|] == target
    && name[|target|] == '.'
    && AllDigits(name[|target| + 1..])
  }

  /** C's isspace. */
  predicate IsSpace(c: char) {
    c == ' ' || c == '\t' || c == '\n' || c == '\r' || c as int == 0x0C || c as int == 0x0B
  }

  function SkipSpaces(s: string): (t: string)
    ensures |t| <= |s| && t == s[|s| - |t|..]
    ensures |t| > 0 ==> !IsSpace(t[0])
    ensures |s| > 0 && !IsSpace(s[0]) ==> t == s
  {
    if |s| > 0 && IsSpace(s[0]) then SkipSpaces(s[1..]) else s
  }

  /** SkipSpaces drops only white space. */
  lemma SkipSpacesSkipsBlanks(s: string)
    ensures forall k | 0 <= k < |s| - |SkipSpaces(s)| :: IsSpace(s[k])
  {
  }

  /** The leading run of digits. */
  function DigitPrefix(s: string): (p: string)
    ensures AllDigits(p) && |p| <= |s| && p == s[..|p|]
    ensures AllDigits(s) ==> p == s
    ensures |p| < |s| ==> !IsDigit(s[|p|])
  {
    if |s| == 0 || !IsDigit(s[0]) then "" else [s[0]] + DigitPrefix(s[1..])
  }

  /** C's atoi (the overflow it leaves undefined cannot arise for the three digits parsed here). */
  function Atoi(s: string): (r: int)
    ensures r < 0 ==> var t := SkipSpaces(s); |t| > 0 && t[0] == '-'
  {
    var t := SkipSpaces(s);
    if |t| > 0 && t[0] == '-' then 0 - DigitsValue(DigitPrefix(t[1..])) as int
    else if |t| > 0 && t[0] == '+' then DigitsValue(DigitPrefix(t[1..]))
    else DigitsValue(DigitPrefix(t))
  }

  lemma {:induction false} DigitsValueSnoc(s: string, c: char)
    requires AllDigits(s) && IsDigit(c)
    ensures AllDigits(s + [c])
    ensures DigitsValue(s + [c]) == DigitsValue(s) * 10 + (c as int - '0' as int)
  {
    assert (s + [c])[..|s|] == s;
  }

  /** Decimal and DigitsValue are inverse. */
  lemma {:induction false} DecimalValue(n: nat)
    ensures DigitsValue(Decimal(n)) == n
    decreases n
  {
    if n >= 10 {
      DecimalValue(n / 10);
      DigitsValueSnoc(Decimal(n / 10), DigitChar(n % 10));
    } else {
      assert Decimal(n)[..0] == "";
    }
  }

  /** A leading zero does not change the value. */
  lemma {:induction false} LeadingZero(s: string)
    requires AllDigits(s)
    ensures AllDigits("0" + s) && DigitsValue("0" + s) == DigitsValue(s)
    decreases |s|
  {
    if |s| == 0 {
      assert ("0" + s)[..0] == "";
    } else {
      var init := s[..|s| - 1];
      LeadingZero(init);
      assert ("0" + s)[..|"0" + s| - 1] == "0" + init;
    }
  }

  lemma {:induction false} ZeroPadValue(s: string, width: nat)
    requires AllDigits(s)
    ensures DigitsValue(ZeroPad(s, width)) == DigitsValue(s)
    decreases width - |s|
  {
    if |s| < width {
      LeadingZero(s);
      ZeroPadValue("0" + s, width);
    }
  }

  /** atoi reads a string of digits as its value. */
  lemma AtoiOfDigits(s: string)
    requires |s| > 0 && AllDigits(s)
    ensures Atoi(s) == DigitsValue(s)
  {
    assert !IsSpace(s[0]);
    assert SkipSpaces(s) == s;
    assert DigitPrefix(s) == s;
  }

  /**
   * Every slot up to getMaximumSaveSlot names a file that listSaves' pattern
   * matches, and listSaves reads the same slot back from its last three characters.
   */
  lemma SlotRoundTrip(target: string, slot: int)
    requires 0 <= slot <= MaximumSaveSlot()
    ensures var name := SaveFileName(target, slot);
            MatchesSavePattern(target, name) && Atoi(name[|name| - 3..]) == slot
  {
    var name := SaveFileName(target, slot);
    var digits := FormatSlot(slot);
    assert name[|name| - 3..] == digits;
    assert name[|target| + 1..] == digits;
    assert name[..|target|] == target;
    DecimalValue(slot);
    ZeroPadValue(Decimal(slot), 3);
    AtoiOfDigits(digits);
  }

  /** Three digits parse to a slot between 0 and the maximum. */
  lemma ThreeDigitsInRange(digits: string)
    requires |digits| == 3 && AllDigits(digits)
    ensures 0 <= Atoi(digits) <= MaximumSaveSlot()
  {
    AtoiOfDigits(digits);
    assert digits[..2][..1] == digits[..1];
    assert DigitsValue(digits[..1]) <= 9;
    assert DigitsValue(digits[..2]) <= 99;
  }

  /** Names of a pattern-matching listing parse to slots between 0 and the maximum. */
  lemma PatternSlotInRange(target: string, name: string)
    requires MatchesSavePattern(target, name)
    ensures 0 <= Atoi(name[|name| - 3..]) <= MaximumSaveSlot()
  {
    var digits := name[|name| - 3..];
    assert digits == name[|target| + 1..];
    ThreeDigitsInRange(digits);
  }

  /** Two digit strings of the same length with the same value are the same string. */
  lemma {:induction false} DigitsValueInjective(s: string, t: string)
    requires AllDigits(s) && AllDigits(t) && |s| == |t|
    requires DigitsValue(s) == DigitsValue(t)
    ensures s == t
    decreases |s|
  {
    if |s| > 0 {
      var n := |s| - 1;
      var a := s[n] as int - '0' as int;
      var b := t[n] as int - '0' as int;
      var x := DigitsValue(s[..n]);
      var y := DigitsValue(t[..n]);
      assert x * 10 + a == y * 10 + b;
      assert (x - y) * 10 == b - a;
      assert x == y && a == b;
      DigitsValueInjective(s[..n], t[..n]);
      assert s == s[..n] + [s[n]] && t == t[..n] + [t[n]];
    }
  }

  /**
   * The listing pattern "<target>.###" matches exactly the file names that
   * removeSaveState and querySaveMetaInfos give the slots 0 to getMaximumSaveSlot:
   * every such name matches, and a matching name is the file of the slot read from it.
   */
  lemma PatternNamesAreSaveNames(target: string, name: string)
    ensures MatchesSavePattern(target, name) <==>
              0 <= SlotOf(name) <= MaximumSaveSlot() && name == SaveFileName(target, SlotOf(name))
  {
    if MatchesSavePattern(target, name) {
      PatternNameIsSaveName(target, name);
    }
  }

  /** Three digits are the %03d form of the slot atoi reads from them. */
  lemma FormatOfDigits(digits: string)
    requires |digits| == 3 && AllDigits(digits)
    ensures 0 <= Atoi(digits) <= MaximumSaveSlot() && FormatSlot(Atoi(digits)) == digits
  {
    ThreeDigitsInRange(digits);
    AtoiOfDigits(digits);
    var slot := Atoi(digits);
    DecimalValue(slot);
    ZeroPadValue(Decimal(slot), 3);
    DigitsValueInjective(FormatSlot(slot), digits);
  }

  /** A name that starts with the target and a '.' is the target, the '.', and the rest. */
  lemma SplitSaveName(target: string, name: string)
    requires |name| > |target| && name[..|target|] == target && name[|target|] == '.'
    ensures name == target + "." + name[|target| + 1..]
  {
    assert name == name[..|target|] + [name[|target|]] + name[|target| + 1..];
  }

  lemma PatternNameIsSaveName(target: string, name: string)
    requires MatchesSavePattern(target, name)
    ensures 0 <= SlotOf(name) <= MaximumSaveSlot() && name == SaveFileName(target, SlotOf(name))
  {
    var digits := name[|target| + 1..];
    assert name[|name| - 3..] == digits;
    assert SlotOf(name) == Atoi(digits);
    FormatOfDigits(digits);
    SplitSaveName(target, name);
  }

  /** The header of a Blade Runner save file, as far as the meta engine reads it. */
  datatype SaveFileHeader = SaveFileHeader(name: string, year: int, month: int, day: int, hour: int, minute: int)

  type Thumbnail = seq<int>

  /**
   * What opening a save file yields: whether the stream reports an error, the header
   * if it can be read, and the thumbnail if it can be read after the header.
   */
  datatype SaveFileData = SaveFileData(err: bool, header: Option<SaveFileHeader>, thumbnail: Option<Thumbnail>)

  /** The save-file manager's view: the files that open, by name. */
  type SaveFiles = map<string, SaveFileData>

  /** SaveStateDescriptor with the fields the meta engine sets. */
  datatype SaveStateDescriptor = SaveStateDescriptor(slot: int, description: string, thumbnail: Option<Thumbnail>,
                                                     saveDate: Option<(int, int, int)>, saveTime: Option<(int, int)>)

  /** A default-constructed SaveStateDescriptor. */
  const EmptyDescriptor := SaveStateDescriptor(-1, "", None, None, None)

  /** The descriptor listSaves makes: slot and description only. */
  function Descriptor(slot: int, description: string): SaveStateDescriptor {
    SaveStateDescriptor(slot, description, None, None, None)
  }

  /** Whether openForLoading succeeds without an error. */
  predicate Opens(saves: SaveFiles, name: string) {
    name in saves && !saves[name].err
  }

  /**
   * The slot listSaves reads from a file name: atoi of its last three characters
   * (the whole name when it is shorter, which the save pattern never lists).
   */
  function SlotOf(name: string): (slot: int)
    ensures |name| >= 3 && AllDigits(name[|name| - 3..]) ==> 0 <= slot <= MaximumSaveSlot()
  {
    if |name| < 3 then Atoi(name)
    else
      var digits := name[|name| - 3..];
      if AllDigits(digits) then ThreeDigitsInRange(digits); Atoi(digits) else Atoi(digits)
  }

  /** The descriptor listSaves makes for a file that opens. */
  function FileDescriptor(name: string, saves: SaveFiles): SaveStateDescriptor
    requires Opens(saves, name)
  {
    var description := if saves[name].header.Some? then saves[name].header.value.name else "";
    Descriptor(SlotOf(name), description)
  }

  /** Whether the listed file at `i` opens and yields `d`. */
  predicate YieldsAt(files: seq<string>, saves: SaveFiles, i: int, d: SaveStateDescriptor)
  {
    0 <= i < |files| && Opens(saves, files[i]) && d == FileDescriptor(files[i], saves)
  }

  /**
   * The descriptors listSaves collects before sorting, in listing order: files that do
   * not open are skipped; a header that cannot be read leaves the name empty.
   */
  function Collected(files: seq<string>, saves: SaveFiles): (ds: seq<SaveStateDescriptor>)
    ensures |ds| <= |files|
  {
    if |files| == 0 then []
    else
      var rest := Collected(files[..|files| - 1], saves);
      var name := files[|files| - 1];
      if !Opens(saves, name) then rest
      else rest + [FileDescriptor(name, saves)]
  }

  /** Every collected descriptor comes from a listed file that opens. */
  lemma {:induction false} CollectedSound(files: seq<string>, saves: SaveFiles, d: SaveStateDescriptor)
    requires d in Collected(files, saves)
    ensures exists i :: YieldsAt(files, saves, i, d)
    decreases |files|
  {
    var init := files[..|files| - 1];
    var last := |files| - 1;
    var rest := Collected(init, saves);
    if d in rest {
      CollectedSound(init, saves, d);
      var i :| YieldsAt(init, saves, i, d);
      assert files[i] == init[i];
      assert YieldsAt(files, saves, i, d);
    } else {
      assert YieldsAt(files, saves, last, d);
    }
  }

  /** Every listed file that opens contributes its descriptor. */
  lemma {:induction false} CollectedComplete(files: seq<string>, saves: SaveFiles, i: int)
    requires 0 <= i < |files| && Opens(saves, files[i])
    ensures FileDescriptor(files[i], saves) in Collected(files, saves)
    decreases |files|
  {
    var init := files[..|files| - 1];
    if i < |files| - 1 {
      assert init[i] == files[i];
      CollectedComplete(init, saves, i);
    }
  }

  /** When every listed name matches the save pattern, every collected slot is a valid slot. */
  lemma CollectedSlotsInRange(target: string, files: seq<string>, saves: SaveFiles, d: SaveStateDescriptor)
    requires forall i | 0 <= i < |files| :: MatchesSavePattern(target, files[i])
    requires d in Collected(files, saves)
    ensures 0 <= d.slot <= MaximumSaveSlot()
  {
    CollectedSound(files, saves, d);
    var i :| YieldsAt(files, saves, i, d);
    PatternSlotInRange(target, files[i]);
  }

  /** SaveStateDescriptorSlotComparator's order. */
  predicate SortedBySlot(s: seq<SaveStateDescriptor>) {
    forall i, j | 0 <= i < j < |s| :: s[i].slot <= s[j].slot
  }

  /** Inserting before the first element of a larger slot keeps the order. */
  function InsertBySlot(d: SaveStateDescriptor, s: seq<SaveStateDescriptor>): (r: seq<SaveStateDescriptor>)
    requires SortedBySlot(s)
    ensures SortedBySlot(r)
    ensures multiset(r) == multiset(s) + multiset{d}
  {
    if |s| == 0 then [d]
    else if d.slot <= s[0].slot then [d] + s
    else
      var tail := InsertBySlot(d, s[1..]);
      assert s == [s[0]] + s[1..];
      InsertStep(d, s[0], s[1..], tail);
      [s[0]] + tail
  }

  lemma InsertStep(d: SaveStateDescriptor, head: SaveStateDescriptor, rest: seq<SaveStateDescriptor>,
                   tail: seq<SaveStateDescriptor>)
    requires head.slot < d.slot && SortedBySlot([head] + rest)
    requires SortedBySlot(tail) && multiset(tail) == multiset(rest) + multiset{d}
    ensures SortedBySlot([head] + tail)
  {
    forall j | 0 <= j < |tail|
      ensures head.slot <= tail[j].slot
    {
      assert tail[j] in multiset(tail);
      assert ([head] + rest)[0] == head;
      if tail[j] != d {
        assert tail[j] in multiset(rest);
        var k :| 0 <= k < |rest| && rest[k] == tail[j];
        assert ([head] + rest)[k + 1] == rest[k];
      }
    }
    var r := [head] + tail;
    forall i, j | 0 <= i < j < |r|
      ensures r[i].slot <= r[j].slot
    {
      if i > 0 {
        assert r[i] == tail[i - 1] && r[j] == tail[j - 1];
      } else {
        assert r[j] == tail[j - 1];
      }
    }
  }

  /** Common::sort with the slot comparator: sorted by slot, and a permutation of its input. */
  function SortBySlot(s: seq<SaveStateDescriptor>): (r: seq<SaveStateDescriptor>)
    ensures SortedBySlot(r)
    ensures multiset(r) == multiset(s)
  {
    if |s| == 0 then []
    else
      assert s == [s[0]] + s[1..];
      InsertBySlot(s[0], SortBySlot(s[1..]))
  }

  /**
   * listSaves: open every file the pattern listing returned, skip the ones that do
   * not open, read the slot from the last three characters and the name from the
   * header, and sort by slot.
   */
  method ListSaves(target: string, files: seq<string>, saves: SaveFiles) returns (list: seq<SaveStateDescriptor>)
    requires forall i | 0 <= i < |files| :: MatchesSavePattern(target, files[i])
    ensures SortedBySlot(list)
    ensures multiset(list) == multiset(Collected(files, saves))
    ensures forall k | 0 <= k < |list| :: 0 <= list[k].slot <= MaximumSaveSlot()
  {
    var saveList: seq<SaveStateDescriptor> := [];
    for i := 0 to |files|
      invariant saveList == Collected(files[..i], saves)
    {
      assert files[..i + 1][..i] == files[..i];
      var fileName := files[i];
      if !(fileName in saves) || saves[fileName].err {
        continue;
      }
      var header := saves[fileName].header;
      var description := if header.Some? then header.value.name else "";
      assert MatchesSavePattern(target, fileName);
      var slotNum := Atoi(fileName[|fileName| - 3..]);
      assert Descriptor(slotNum, description) == FileDescriptor(fileName, saves);
      saveList := saveList + [Descriptor(slotNum, description)];
    }
    assert files[..|files|] == files;
    list := SortBySlot(saveList);
    PermutedSlotsInRange(target, files, saves, list);
  }

  /** A permutation of the collected descriptors holds valid slots only. */
  lemma PermutedSlotsInRange(target: string, files: seq<string>, saves: SaveFiles, list: seq<SaveStateDescriptor>)
    requires forall i | 0 <= i < |files| :: MatchesSavePattern(target, files[i])
    requires multiset(list) == multiset(Collected(files, saves))
    ensures forall k | 0 <= k < |list| :: 0 <= list[k].slot <= MaximumSaveSlot()
  {
    forall k | 0 <= k < |list|
      ensures 0 <= list[k].slot <= MaximumSaveSlot()
    {
      assert list[k] in multiset(list);
      CollectedSlotsInRange(target, files, saves, list[k]);
    }
  }

  /**
   * querySaveMetaInfos: the empty descriptor when the file does not open or its
   * header or thumbnail cannot be read; otherwise slot, name, thumbnail, date and time.
   */
  function QuerySaveMetaInfos(target: string, slot: int, saves: SaveFiles): (d: SaveStateDescriptor)
    ensures d != EmptyDescriptor ==> d.slot == slot
    ensures d == EmptyDescriptor <==>
              !Opens(saves, SaveFileName(target, slot))
              || saves[SaveFileName(target, slot)].header.None?
              || saves[SaveFileName(target, slot)].thumbnail.None?
    ensures d != EmptyDescriptor ==>
              var h := saves[SaveFileName(target, slot)].header.value;
              d.description == h.name && d.saveDate == Some((h.year, h.month, h.day))
              && d.saveTime == Some((h.hour, h.minute))
    ensures d != EmptyDescriptor ==> d.thumbnail == saves[SaveFileName(target, slot)].thumbnail
  {
    var filename := SaveFileName(target, slot);
    if filename !in saves || saves[filename].err then EmptyDescriptor
    else
      var file := saves[filename];
      if file.header.None? || file.thumbnail.None? then EmptyDescriptor
      else
        var h := file.header.value;
        SaveStateDescriptor(slot, h.name, file.thumbnail, Some((h.year, h.month, h.day)), Some((h.hour, h.minute)))
  }

  /** removeSaveState: the slot's file is removed from the save-file manager. */
  function RemoveSaveState(target: string, slot: int, saves: SaveFiles): (r: SaveFiles)
    ensures SaveFileName(target, slot) !in r
    ensures forall name | name in saves && name != SaveFileName(target, slot) :: name in r && r[name] == saves[name]
    ensures r.Keys <= saves.Keys
  {
    saves - {SaveFileName(target, slot)}
  }

  /** After a removal the slot has no meta information, and the other slots keep theirs. */
  lemma RemoveThenQuery(target: string, slot: int, other: int, saves: SaveFiles)
    requires 0 <= slot <= MaximumSaveSlot() && 0 <= other <= MaximumSaveSlot() && other != slot
    ensures QuerySaveMetaInfos(target, slot, RemoveSaveState(target, slot, saves)) == EmptyDescriptor
    ensures QuerySaveMetaInfos(target, other, RemoveSaveState(target, slot, saves)) == QuerySaveMetaInfos(target, other, saves)
  {
    SaveNamesDistinct(target, slot, other);
  }

  /** Different slots up to the maximum name different files. */
  lemma SaveNamesDistinct(target: string, a: int, b: int)
    requires 0 <= a <= MaximumSaveSlot() && 0 <= b <= MaximumSaveSlot() && a != b
    ensures SaveFileName(target, a) != SaveFileName(target, b)
  {
    SlotRoundTrip(target, a);
    SlotRoundTrip(target, b);
  }

  /**
   * listSaves and querySaveMetaInfos agree: the file of a slot that opens with a
   * readable header and thumbnail is listed under that slot with the name that
   * querySaveMetaInfos reports.
   */
  lemma ListAndQueryAgree(target: string, slot: int, files: seq<string>, saves: SaveFiles)
    requires 0 <= slot <= MaximumSaveSlot()
    requires SaveFileName(target, slot) in files
    requires QuerySaveMetaInfos(target, slot, saves) != EmptyDescriptor
    ensures var q := QuerySaveMetaInfos(target, slot, saves);
            Descriptor(q.slot, q.description) in Collected(files, saves)
  {
    var name := SaveFileName(target, slot);
    var i :| 0 <= i < |files| && files[i] == name;
    SlotRoundTrip(target, slot);
    var q := QuerySaveMetaInfos(target, slot, saves);
    CollectedComplete(files, saves, i);
  }
}
