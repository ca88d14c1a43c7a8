/**
  ButtonIconManager (src/MEGASync/gui/ButtonIconManager.cpp): swaps a
  button's icon for its default, hover, selected and hover-selected
  variants. An icon's url names a file such as `icon_default.png`; the part
  after the last separator is dropped and the suffix for the button's state
  is appended.

  How QFileInfo splits the url path into directory, base name and complete
  suffix is Qt behaviour and is an input here (FileParts); so are the
  suffixes of the manager's settings, whose values are not part of this
  model.
*/
module ButtonIconManager {
  import opened Wrappers

  /** What QFileInfo reports for the icon's url path. */
  datatype FileParts = FileParts(path: string, baseName: string, completeSuffix: string)

  /** ButtonIconManager::IconInfo. */
  datatype IconInfo = IconInfo(iconPath: string, iconName: string, extension: string)

  predicate IsEmpty(info: IconInfo)
  {
    |info.iconName| == 0
  }

  /** The suffixes of the manager's settings. */
  datatype Settings = Settings(defaultSuffix: string, hoverSuffix: string,
                               selectedSuffix: string, hoverSelectedSuffix: string)

  // ---------------------------------------------------------------------
  // QString::split and QStringList::join on one separator character.

  /** The parts between the separators, empty parts included. */
  function Split(s: string, c: char): (parts: seq<string>)
    ensures |parts| >= 1
  {
    if s == [] then [[]]
    else
      var rest := Split(s[1..], c);
      if s[0] == c then [[]] + rest else [[s[0]] + rest[0]] + rest[1..]
  }

  function Join(parts: seq<string>, c: char): string
    requires |parts| >= 1
  {
    if |parts| == 1 then parts[0] else parts[0] + [c] + Join(parts[1..], c)
  }

  /** There is more than one part exactly when the separator occurs, and
      no part contains it. */
  lemma {:induction false} SplitParts(s: string, c: char)
    ensures |Split(s, c)| > 1 <==> c in s
    ensures forall k :: 0 <= k < |Split(s, c)| ==> c !in Split(s, c)[k]
  {
    if s != [] {
      SplitParts(s[1..], c);
      assert s == [s[0]] + s[1..];
      var rest := Split(s[1..], c);
      if s[0] != c {
        assert forall k :: 1 <= k < |Split(s, c)| ==> Split(s, c)[k] == rest[k];
      } else {
        assert forall k :: 1 <= k < |Split(s, c)| ==> Split(s, c)[k] == rest[k - 1];
      }
    }
  }

  /** Prepending a character other than the separator to the first part. */
  lemma JoinCons(x: char, first: string, more: seq<string>, c: char)
    ensures Join([[x] + first] + more, c) == [x] + Join([first] + more, c)
  {
    if |more| > 0 {
      assert ([[x] + first] + more)[1..] == more;
      assert ([first] + more)[1..] == more;
    }
  }

  /** Joining the parts gives the string back. */
  lemma {:induction false} JoinSplit(s: string, c: char)
    ensures Join(Split(s, c), c) == s
  {
    if s != [] {
      JoinSplit(s[1..], c);
      var rest := Split(s[1..], c);
      if s[0] == c {
        assert ([[]] + rest)[1..] == rest;
      } else {
        assert rest == [rest[0]] + rest[1..];
        JoinCons(s[0], rest[0], rest[1..], c);
      }
      assert s == [s[0]] + s[1..];
    }
  }

  /** Splitting a text that starts with a separator-free prefix. */
  lemma {:induction false} SplitPrefix(p: string, t: string, c: char)
    requires c !in p
    ensures Split(p + t, c) == [p + Split(t, c)[0]] + Split(t, c)[1..]
  {
    var q := Split(t, c);
    if p != [] {
      var u := p[1..] + t;
      SplitPrefix(p[1..], t, c);
      assert (p + t)[0] == p[0] && (p + t)[1..] == u;
      var r := Split(u, c);
      assert Split(p + t, c) == [[p[0]] + r[0]] + r[1..];
      assert r[0] == p[1..] + q[0] && r[1..] == q[1..];
      assert [p[0]] + r[0] == p + q[0];
    } else {
      assert p + t == t && p + q[0] == q[0];
      assert q == [q[0]] + q[1..];
    }
  }

  /** Splitting a join of separator-free parts gives the parts back. */
  lemma {:induction false} SplitJoin(parts: seq<string>, c: char)
    requires |parts| >= 1
    requires forall k :: 0 <= k < |parts| ==> c !in parts[k]
    ensures Split(Join(parts, c), c) == parts
  {
    var p := parts[0];
    if |parts| == 1 {
      SplitPrefix(p, [], c);
      assert p + [] == p;
    } else {
      var j := Join(parts[1..], c);
      SplitJoin(parts[1..], c);
      assert Join(parts, c) == p + ([c] + j);
      SplitPrefix(p, [c] + j, c);
      assert ([c] + j)[1..] == j;
      assert Split([c] + j, c) == [[]] + parts[1..];
      assert p + [] == p;
    }
  }

  /** The text before the last separator: the parts but the last,
      rejoined. */
  function BeforeLastPart(s: string, c: char): string
  {
    var parts := Split(s, c);
    if |parts| > 1 then Join(parts[..|parts| - 1], c) else ""
  }

  /** The text kept is exactly the text up to the last separator. */
  predicate KeepsUpToLastSeparator(s: string, c: char, r: string)
  {
    |r| < |s| && s[..|r|] == r && s[|r|] == c && c !in s[|r| + 1..]
  }

  /** Dropping the last part and rejoining keeps the text up to the last
      separator. */
  lemma {:induction false} DropLastPart(s: string, c: char)
    requires c in s
    ensures |Split(s, c)| > 1
    ensures KeepsUpToLastSeparator(s, c, BeforeLastPart(s, c))
    decreases |s|, 1
  {
    SplitParts(s, c);
    if s[0] == c {
      DropLastPartAfterSeparator(s, c);
    } else {
      DropLastPartAfterChar(s, c);
    }
  }

  lemma {:induction false} DropLastPartAfterSeparator(s: string, c: char)
    requires s != [] && s[0] == c
    ensures KeepsUpToLastSeparator(s, c, BeforeLastPart(s, c))
    decreases |s|, 0
  {
    SplitParts(s, c);
    SplitParts(s[1..], c);
    var rest := Split(s[1..], c);
    var parts := Split(s, c);
    var r := BeforeLastPart(s, c);
    assert parts == [[]] + rest;
    if c !in s[1..] {
      assert parts[..|parts| - 1] == [[]];
      assert r == [];
    } else {
      DropLastPart(s[1..], c);
      var r' := BeforeLastPart(s[1..], c);
      assert parts[..|parts| - 1] == [[]] + rest[..|rest| - 1];
      assert parts[..|parts| - 1][1..] == rest[..|rest| - 1];
      assert r == [c] + r';
      assert s[..|r|] == [c] + s[1..][..|r'|];
      assert s[|r| + 1..] == s[1..][|r'| + 1..];
    }
  }

  lemma {:induction false} DropLastPartAfterChar(s: string, c: char)
    requires c in s && s[0] != c
    ensures KeepsUpToLastSeparator(s, c, BeforeLastPart(s, c))
    decreases |s|, 0
  {
    assert c in s[1..] by {
      var k :| 0 <= k < |s| && s[k] == c;
      assert s[1..][k - 1] == c;
    }
    SplitParts(s[1..], c);
    DropLastPart(s[1..], c);
    var rest := Split(s[1..], c);
    var parts := Split(s, c);
    var r' := BeforeLastPart(s[1..], c);
    assert parts == [[s[0]] + rest[0]] + rest[1..];
    assert parts[..|parts| - 1] == [[s[0]] + rest[0]] + rest[1..|rest| - 1];
    assert rest[..|rest| - 1] == [rest[0]] + rest[1..|rest| - 1];
    JoinCons(s[0], rest[0], rest[1..|rest| - 1], c);
    var r := BeforeLastPart(s, c);
    assert r == [s[0]] + r';
    assert s[..|r|] == [s[0]] + s[1..][..|r'|];
    assert s[|r| + 1..] == s[1..][|r'| + 1..];
  }

  // ---------------------------------------------------------------------
  // Icon names.

  /** cleanIconName: with more than one part, the last is dropped and the
      rest rejoined; otherwise the name is cleared. */
  function CleanIconName(info: IconInfo, separator: char): (r: (IconInfo, bool))
    ensures r.0.iconPath == info.iconPath && r.0.extension == info.extension
    ensures r.1 <==> separator in info.iconName
    ensures !r.1 ==> r.0.iconName == ""
    ensures r.1 ==> KeepsUpToLastSeparator(info.iconName, separator, r.0.iconName)
  {
    SplitParts(info.iconName, separator);
    var parts := Split(info.iconName, separator);
    if |parts| > 1 then
      DropLastPart(info.iconName, separator);
      (info.(iconName := Join(parts[..|parts| - 1], separator)), true)
    else
      (info.(iconName := ""), false)
  }

  /** The icon info before the name is cleaned. */
  function InfoOf(parts: FileParts): IconInfo
  {
    IconInfo(parts.path, parts.baseName, parts.completeSuffix)
  }

  /** splitIconPath as written: the retry with `-` cleans the name the
      failed `_` attempt has already cleared. */
  function SplitIconPathAsWritten(parts: FileParts): IconInfo
  {
    var (info, ok) := CleanIconName(InfoOf(parts), '_');
    if ok then info else CleanIconName(info, '-').0
  }

  /** A base name without `_` always ends empty, whatever `-` it holds. */
  lemma DashRetryIsDeadAsWritten(parts: FileParts)
    requires '_' !in parts.baseName
    ensures IsEmpty(SplitIconPathAsWritten(parts))
  {
  }

  /** For instance `icon-default` loses its whole name. */
  lemma DashNameLostAsWritten()
    ensures SplitIconPathAsWritten(FileParts("/images", "icon-default", "png")).iconName == ""
  {
    assert '_' !in "icon-default";
    DashRetryIsDeadAsWritten(FileParts("/images", "icon-default", "png"));
  }

  /** The corrected split keeps a `_`-free name up to its last `-`; so
      `icon-default` becomes `icon`. */
  lemma DashNameKept(parts: FileParts, k: nat)
    requires '_' !in parts.baseName
    requires k < |parts.baseName| && parts.baseName[k] == '-' && '-' !in parts.baseName[k + 1..]
    ensures SplitIconPath(parts).iconName == parts.baseName[..k]
  {
    assert parts.baseName[k] in parts.baseName;
  }

  /** splitIconPath, retrying the `-` separator on the original name. */
  function SplitIconPath(parts: FileParts): (info: IconInfo)
    ensures info.iconPath == parts.path && info.extension == parts.completeSuffix
    ensures '_' in parts.baseName ==> info == CleanIconName(InfoOf(parts), '_').0
    ensures '_' !in parts.baseName ==> info == CleanIconName(InfoOf(parts), '-').0
  {
    var (info, ok) := CleanIconName(InfoOf(parts), '_');
    if ok then info else CleanIconName(InfoOf(parts), '-').0
  }

  /** A name is kept, without its last part, when it holds either
      separator, `_` first. */
  lemma SplitIconPathKeepsPrefix(parts: FileParts)
    ensures !IsEmpty(SplitIconPath(parts)) ==> '_' in parts.baseName || '-' in parts.baseName
    ensures '_' !in parts.baseName && '-' in parts.baseName ==>
              KeepsUpToLastSeparator(parts.baseName, '-', SplitIconPath(parts).iconName)
  {
  }

  /** fillIcon's file name: ":" + path + "/" + name + "." + extension. */
  function FillIcon(info: IconInfo): (r: string)
    ensures |r| == |info.iconPath| + |info.iconName| + |info.extension| + 3
    ensures r[0] == ':' && r[1..1 + |info.iconPath|] == info.iconPath && r[1 + |info.iconPath|] == '/'
    ensures r[2 + |info.iconPath|..2 + |info.iconPath| + |info.iconName|] == info.iconName
    ensures r[2 + |info.iconPath| + |info.iconName|] == '.'
    ensures r[3 + |info.iconPath| + |info.iconName|..] == info.extension
  {
    [':'] + info.iconPath + ['/'] + info.iconName + ['.'] + info.extension
  }

  // ---------------------------------------------------------------------
  // Suffix choices.

  /** setDefaultIcon: selected when checkable and checked, else default. */
  function DefaultSuffix(s: Settings, checkable: bool, checked: bool): (suffix: string)
    ensures suffix == s.selectedSuffix || suffix == s.defaultSuffix
    ensures checkable && checked ==> suffix == s.selectedSuffix
    ensures !(checkable && checked) ==> suffix == s.defaultSuffix
  {
    if checkable && checked then s.selectedSuffix else s.defaultSuffix
  }

  /** setHoverIcon: hover-selected when checkable, checked and flagged,
      else hover. */
  function HoverSuffix(s: Settings, checkable: bool, checked: bool, hoverSelected: bool): (suffix: string)
    ensures checkable && checked && hoverSelected ==> suffix == s.hoverSelectedSuffix
    ensures !(checkable && checked && hoverSelected) ==> suffix == s.hoverSuffix
  {
    if checkable && checked then (if hoverSelected then s.hoverSelectedSuffix else s.hoverSuffix)
    else s.hoverSuffix
  }

  /** setSelectedIcon: selected when checked, else hover. */
  function SelectedSuffix(s: Settings, checked: bool): (suffix: string)
    ensures checked ==> suffix == s.selectedSuffix
    ensures !checked ==> suffix == s.hoverSuffix
  {
    if checked then s.selectedSuffix else s.hoverSuffix
  }

  /** The file added to the icon for a suffix, none when the name is
      empty. */
  function IconFile(parts: FileParts, suffix: string): (f: Option<string>)
    ensures f.None? <==> IsEmpty(SplitIconPath(parts))
    ensures f.Some? ==>
              var info := SplitIconPath(parts);
              f.value == FillIcon(info.(iconName := info.iconName + suffix))
  {
    var info := SplitIconPath(parts);
    if IsEmpty(info) then None else Some(FillIcon(info.(iconName := info.iconName + suffix)))
  }

  /** A managed button with its properties: the icon url, the
      hover-selected and ignore flags and the stored check state. Its icon
      is the list of files added to it. */
  class Button {
    const checkable: bool
    var checked: bool
    const ignore: bool
    const hoverSelected: bool
    const iconUrl: FileParts
    var checkState: bool
    var filtered: bool
    var icon: seq<string>

    constructor(checkable: bool, checked: bool, ignore: bool, hoverSelected: bool, iconUrl: FileParts)
      ensures this.checkable == checkable && this.checked == checked && this.ignore == ignore
      ensures this.hoverSelected == hoverSelected && this.iconUrl == iconUrl
      ensures !checkState && !filtered && icon == []
    {
      this.checkable, this.checked, this.ignore := checkable, checked, ignore;
      this.hoverSelected, this.iconUrl := hoverSelected, iconUrl;
      checkState, filtered, icon := false, false, [];
    }
  }

  datatype Event = Enter | Leave | Paint | OtherEvent

  /** The icon after adding the file for a suffix. */
  function WithFile(icon: seq<string>, f: Option<string>): seq<string>
  {
    if f.Some? then icon + [f.value] else icon
  }

  class ButtonIconManager {
    const settings: Settings

    constructor(settings: Settings)
      ensures this.settings == settings
    {
      this.settings := settings;
    }

    method SetDefaultIcon(b: Button)
      modifies b
      ensures b.icon == WithFile(old(b.icon), IconFile(b.iconUrl, DefaultSuffix(settings, b.checkable, b.checked)))
      ensures b.checkState == old(b.checkState) && b.filtered == old(b.filtered)
      ensures b.checked == old(b.checked)
    {
      var info := SplitIconPath(b.iconUrl);
      if !IsEmpty(info) {
        var suffix := if b.checkable && b.checked then settings.selectedSuffix else settings.defaultSuffix;
        b.icon := b.icon + [FillIcon(info.(iconName := info.iconName + suffix))];
      }
    }

    method SetHoverIcon(b: Button)
      modifies b
      ensures b.icon == WithFile(old(b.icon), IconFile(b.iconUrl, HoverSuffix(settings, b.checkable, b.checked, b.hoverSelected)))
      ensures b.checkState == old(b.checkState) && b.filtered == old(b.filtered)
      ensures b.checked == old(b.checked)
    {
      var info := SplitIconPath(b.iconUrl);
      if !IsEmpty(info) {
        var suffix := settings.hoverSuffix;
        if b.checkable && b.checked && b.hoverSelected {
          suffix := settings.hoverSelectedSuffix;
        }
        b.icon := b.icon + [FillIcon(info.(iconName := info.iconName + suffix))];
      }
    }

    method SetSelectedIcon(b: Button)
      modifies b
      ensures b.icon == WithFile(old(b.icon), IconFile(b.iconUrl, SelectedSuffix(settings, b.checked)))
      ensures b.checkState == old(b.checkState) && b.filtered == old(b.filtered)
      ensures b.checked == old(b.checked)
    {
      var info := SplitIconPath(b.iconUrl);
      if !IsEmpty(info) {
        var suffix := if b.checked then settings.selectedSuffix else settings.hoverSuffix;
        b.icon := b.icon + [FillIcon(info.(iconName := info.iconName + suffix))];
      }
    }

    /** addButton: an ignored button is left alone; any other is filtered,
        shows its default icon and stores its checked state. */
    method AddButton(b: Button)
      modifies b
      ensures b.ignore ==> b.icon == old(b.icon) && b.checkState == old(b.checkState) && b.filtered == old(b.filtered)
      ensures !b.ignore ==>
                b.filtered && b.checkState == b.checked &&
                b.icon == WithFile(old(b.icon), IconFile(b.iconUrl, DefaultSuffix(settings, b.checkable, b.checked)))
      ensures b.checked == old(b.checked)
    {
      if !b.ignore {
        b.filtered := true;
        SetDefaultIcon(b);
        b.checkState := b.checked;
      }
    }

    /** eventFilter: Enter and Leave swap to the hover and default icons; on
        Paint a checkable button whose stored check state is stale gets its
        default icon and the state is stored. The event is never consumed. */
    method EventFilter(watched: Option<Button>, e: Event) returns (consumed: bool)
      modifies if watched.Some? then {watched.value} else {}
      ensures !consumed
      ensures watched.Some? ==>
                var b := watched.value;
                b.checked == old(b.checked) && b.filtered == old(b.filtered) &&
                b.icon == (match e
                           case Enter => WithFile(old(b.icon), IconFile(b.iconUrl, HoverSuffix(settings, b.checkable, b.checked, b.hoverSelected)))
                           case Leave => WithFile(old(b.icon), IconFile(b.iconUrl, DefaultSuffix(settings, b.checkable, b.checked)))
                           case Paint => if b.checkable && old(b.checkState) != b.checked
                                         then WithFile(old(b.icon), IconFile(b.iconUrl, DefaultSuffix(settings, b.checkable, b.checked)))
                                         else old(b.icon)
                           case OtherEvent => old(b.icon)) &&
                b.checkState == (if e == Paint && b.checkable then b.checked else old(b.checkState))
    {
      if watched.None? {
        return false;
      }
      var b := watched.value;
      if e == Enter || e == Leave {
        if e == Enter {
          SetHoverIcon(b);
        } else if e == Leave {
          SetDefaultIcon(b);
        }
      } else if e == Paint {
        if b.checkable {
          if b.checkState != b.checked {
            SetDefaultIcon(b);
            b.checkState := b.checked;
          }
        }
      }
      return false;
    }
  }
}
