/**
 * The settings store behind a desktop key file: parsing of key strings, and a table in memory
 * written behind to the file by one coalesced timer.
 */
module SettingsBackend {
  import opened Options

  // ---------- Key strings ----------

  /** group/key[locale]=value, the last two optional. */
  datatype Parts = Parts(group: string, key: string, locale: Option<string>, value: Option<string>)

  /** The first position of c in s, or the length of s. */
  function Index(s: string, c: char): (n: nat)
    ensures n <= |s| && c !in s[..n] && (n < |s| ==> s[n] == c)
  {
    if s == [] || s[0] == c then 0
    else
      var n := Index(s[1..], c);
      assert s[..n + 1] == [s[0]] + s[1..][..n];
      n + 1
  }

  /** An opening bracket occurs before the first closing one. */
  predicate Bracketed(k: string) {
    Index(k, '[') < Index(k, ']') < |k|
  }

  /** A key and its locale. */
  function Key(k: string): (string, Option<string>) {
    if Bracketed(k) then (k[..Index(k, '[')], Some(k[Index(k, '[') + 1..Index(k, ']')])) else (k, None)
  }

  /** What follows the first '=', if there is one. */
  function Value(rest: string): Option<string> {
    var j := Index(rest, '=');
    if j < |rest| then Some(rest[j + 1..]) else None
  }

  function Parse(s: string): Option<Parts> {
    var i := Index(s, '/');
    if i == |s| || i == 0 || i + 1 == |s| then None
    else
      var rest := s[i + 1..];
      var k := Key(rest[..Index(rest, '=')]);
      Some(Parts(s[..i], k.0, k.1, Value(rest)))
  }

  function Tagged(p: Parts): string {
    p.key + match p.locale case None => "" case Some(l) => "[" + l + "]"
  }

  function Compose(p: Parts): string {
    p.group + "/" + (Tagged(p) + Tail(p.value))
  }

  function Tail(value: Option<string>): string {
    match value case None => "" case Some(v) => "=" + v
  }

  /** The parts that a key string can carry. */
  predicate Carried(p: Parts) {
    && p.group != "" && '/' !in p.group
    && '=' !in Tagged(p)
    && match p.locale
       case None => !Bracketed(p.key) && (p.value.None? ==> p.key != "")
       case Some(l) => '[' !in p.key && ']' !in p.key && ']' !in l
  }

  lemma {:induction false} IndexIs(s: string, c: char, n: nat)
    requires n <= |s| && c !in s[..n] && (n < |s| ==> s[n] == c)
    ensures Index(s, c) == n
  {
    if n > 0 {
      assert s[..n] == [s[0]] + s[1..][..n - 1];
      IndexIs(s[1..], c, n - 1);
    }
  }

  lemma IndexAppended(s: string, c: char, t: string)
    ensures Index(s + t, c) == if c in s then Index(s, c) else |s| + Index(t, c)
  {
    var u := s + t;
    if c in s {
      var n := Index(s, c);
      assert n < |s| by { assert s[..|s|] == s; }
      assert u[..n] == s[..n];
      IndexIs(u, c, n);
    } else {
      var n := Index(t, c);
      assert u[..|s| + n] == s + t[..n];
      IndexIs(u, c, |s| + n);
    }
  }

  lemma OpeningIndex(k: string, l: string)
    ensures Index(k + "[" + l + "]", '[') == |k| <==> '[' !in k
  {
    assert k + "[" + l + "]" == k + ("[" + l + "]");
    IndexAppended(k, '[', "[" + l + "]");
    IndexInside(k, '[');
  }

  lemma ClosingIndex(k: string, l: string)
    ensures Index(k + "[" + l + "]", ']') == |k| + 1 + |l| <==> ']' !in k && ']' !in l
  {
    IndexAppended(k + "[" + l, ']', "]");
    IndexInside(k + "[" + l, ']');
  }

  lemma IndexInside(s: string, c: char)
    ensures c in s <==> Index(s, c) < |s|
  {
    assert s[..|s|] == s;
  }

  lemma KeyReadBack(k: string, l: string)
    ensures var t := k + "[" + l + "]";
            Key(t) == (k, Some(l)) <==> Index(t, '[') == |k| && Index(t, ']') == |k| + 1 + |l|
  {
    var t := k + "[" + l + "]";
    assert t[..|k|] == k && t[|k| + 1..|k| + 1 + |l|] == l;
  }

  lemma TaggedReadBack(p: Parts)
    requires p.locale.Some?
    ensures Key(Tagged(p)) == (p.key, p.locale) <==> '[' !in p.key && ']' !in p.key && ']' !in p.locale.value
  {
    var l := p.locale.value;
    assert Tagged(p) == p.key + "[" + l + "]";
    OpeningIndex(p.key, l);
    ClosingIndex(p.key, l);
    KeyReadBack(p.key, l);
  }

  lemma RestReadBack(t: string, value: Option<string>)
    ensures '=' !in t ==> (t + Tail(value))[..Index(t + Tail(value), '=')] == t
    ensures Value(t + Tail(value)) == value <==> '=' !in t
  {
    var tail := Tail(value);
    IndexAppended(t, '=', tail);
    IndexInside(t, '=');
    assert value.Some? ==> tail[1..] == value.value;
    var rest := t + tail;
    if '=' !in t {
      assert rest[..|t|] == t;
      assert value.Some? ==> rest[|t| + 1..] == value.value;
    }
  }

  lemma GroupReadBack(g: string, rest: string)
    ensures var s := g + "/" + rest; var i := Index(s, '/');
            if '/' in g then i < |g| else i == |g| && s[..i] == g && s[i + 1..] == rest
  {
    assert g + "/" + rest == g + ("/" + rest);
    IndexAppended(g, '/', "/" + rest);
    IndexInside(g, '/');
  }

  lemma PlainReadBack(p: Parts)
    requires p.locale.None?
    ensures Key(Tagged(p)) == (p.key, p.locale) <==> !Bracketed(p.key)
  {
    assert Tagged(p) == p.key;
  }

  /** Parsing inverts composing exactly for the parts a key string can carry. */
  lemma ParseInvertsExactlyWhen(p: Parts)
    ensures Parse(Compose(p)) == Some(p) <==> Carried(p)
  {
    GroupReadBack(p.group, Tagged(p) + Tail(p.value));
    if '/' !in p.group {
      RestReadBack(Tagged(p), p.value);
      if p.locale.Some? { TaggedReadBack(p); } else { PlainReadBack(p); }
    }
  }

  /** The C string at the start of a buffer. */
  function Text(buffer: seq<char>): string {
    buffer[..Index(buffer, '\0')]
  }

  /** The position of c in the C string t of a buffer, or its length. */
  method StrChr(buffer: array<char>, c: char, ghost t: string) returns (n: nat)
    requires '\0' !in t && c != '\0' && buffer[..] == t + ['\0']
    ensures n == Index(t, c)
  {
    n := 0;
    while buffer[n] != '\0' && buffer[n] != c
      invariant n <= |t|
      invariant c !in t[..n]
      decreases |t| - n
    {
      assert buffer[n] == buffer[..][n] && n < |t|;
      assert t[..n + 1] == t[..n] + [t[n]];
      n := n + 1;
    }
    assert buffer[n] == buffer[..][n];
    assert n < |t| ==> t[n] in t;
    IndexIs(t, c, n);
  }

  lemma Truncated(t: string, n: nat)
    requires '\0' !in t && n <= |t|
    ensures Text((t + ['\0'])[n := '\0']) == t[..n]
  {
    var k := (t + ['\0'])[n := '\0'];
    assert k[..n] == t[..n];
    IndexIs(k, '\0', n);
  }

  /** The locale is cut off by writing a terminator over its opening bracket. */
  method TrimLocale(t: string) returns (key: string, locale: Option<string>)
    requires '\0' !in t
    ensures (key, locale) == Key(t)
  {
    var k := new char[|t| + 1](n requires 0 <= n <= |t| => if n < |t| then t[n] else '\0');
    assert k[..] == t + ['\0'];
    var tmp1 := StrChr(k, '[', t);
    var tmp2 := StrChr(k, ']', t);
    locale := None;
    if tmp1 < k.Length - 1 && tmp2 < k.Length - 1 && tmp2 > tmp1 {
      locale := Some(k[tmp1 + 1..tmp2]);
      assert k[tmp1 + 1..tmp2] == t[tmp1 + 1..tmp2];
      k[tmp1] := '\0';
      Truncated(t, tmp1);
    } else {
      Truncated(t, |t|);
      assert (t + ['\0'])[|t| := '\0'] == t + ['\0'] && t[..|t|] == t;
    }
    key := Text(k[..]);
  }

  method ParseKeyString(keystring: string) returns (parts: Option<Parts>)
    requires '\0' !in keystring
    ensures parts == Parse(keystring)
  {
    var i := Index(keystring, '/');
    if i == |keystring| || i == 0 || i + 1 == |keystring| { return None; }
    var rest := keystring[i + 1..];
    var j := Index(rest, '=');
    var value := if j < |rest| then Some(rest[j + 1..]) else None;
    assert forall c | c in rest[..j] :: c in keystring;
    var key, locale := TrimLocale(rest[..j]);
    return Some(Parts(keystring[..i], key, locale, value));
  }

  // ---------- The store ----------

  type Table = map<(string, string), string>

  /**
   * keys is the key file in memory, file its contents on disk; timers counts the save timers the main loop holds;
   * saves and failed tell how many saves succeeded and whether the last attempt failed.
   */
  datatype Store = Store(
    keys: Table,
    dirty: bool,
    saveQueued: bool,
    file: Table,
    timers: nat,
    saves: nat,
    failed: bool)

  /** The names that a key file accepts are a matter for its library. */
  type Names = (string, string) -> bool

  /** read is what loading the file put into memory: the file, or what was read before the load failed. */
  function Loaded(file: Table, read: Table): Store {
    Store(read, false, false, file, 0, 0, false)
  }

  function Found(s: Store, keystring: string): Option<string> {
    match Parse(keystring)
    case None => None
    case Some(p) => if (p.group, p.key) in s.keys then Some(s.keys[(p.group, p.key)]) else None
  }

  function Queued(s: Store): Store {
    if s.dirty && !s.saveQueued then s.(saveQueued := true, timers := s.timers + 1) else s
  }

  function WithValue(s: Store, keystring: string, value: string, names: Names): Store {
    match Parse(keystring)
    case None => s
    case Some(p) =>
      Queued(s.(keys := if names(p.group, p.key) then s.keys[(p.group, p.key) := value] else s.keys, dirty := true))
  }

  function Saved(s: Store, ok: bool): Store {
    if !s.dirty then s
    else if ok then s.(file := s.keys, dirty := false, saves := s.saves + 1, failed := false)
    else s.(failed := true)
  }

  function Fired(s: Store, ok: bool): Store
    requires s.timers > 0
  {
    Saved(s, ok).(saveQueued := false, timers := s.timers - 1)
  }

  datatype Event = Set(keystring: string, value: string) | Fire(ok: bool)

  function Step(s: Store, e: Event, names: Names): Store {
    match e
    case Set(keystring, value) => WithValue(s, keystring, value, names)
    case Fire(ok) => if s.timers > 0 then Fired(s, ok) else s
  }

  function Run(start: Store, events: seq<Event>, names: Names): Store {
    if events == [] then start
    else Step(Run(start, events[..|events| - 1], names), events[|events| - 1], names)
  }

  /** The value of the last set of a parsed group and key, or what was loaded. */
  function LastSet(start: Table, events: seq<Event>, names: Names, group: string, key: string): Option<string> {
    if events == [] then if (group, key) in start then Some(start[(group, key)]) else None
    else
      var e := events[|events| - 1];
      if e.Set? && IsSetOf(e, group, key) && names(group, key) then Some(e.value)
      else LastSet(start, events[..|events| - 1], names, group, key)
  }

  predicate IsSetOf(e: Event, group: string, key: string)
    requires e.Set?
  {
    var p := Parse(e.keystring);
    p.Some? && p.value.group == group && p.value.key == key
  }

  predicate StoreInv(s: Store, start: Table, file: Table) {
    && s.timers == (if s.saveQueued then 1 else 0)
    && (s.saveQueued ==> s.dirty)
    && (s.dirty && !s.saveQueued ==> s.failed)
    && (s.saves == 0 ==> s.file == file)
    && (!s.dirty ==> s.keys == if s.saves == 0 then start else s.file)
  }

  lemma StepKeeps(s: Store, e: Event, names: Names, start: Table, file: Table)
    requires StoreInv(s, start, file)
    ensures StoreInv(Step(s, e, names), start, file)
  {
  }

  lemma {:induction false} Reachable(file: Table, read: Table, events: seq<Event>, names: Names)
    ensures StoreInv(Run(Loaded(file, read), events, names), read, file)
  {
    if events != [] {
      Reachable(file, read, events[..|events| - 1], names);
      StepKeeps(Run(Loaded(file, read), events[..|events| - 1], names), events[|events| - 1], names, read, file);
    }
  }

  // ---------- Main results ----------

  /** After a successful load, in every run: a clean table is on disk, one timer at most, none only if a save failed. */
  lemma CleanMeansSaved(file: Table, events: seq<Event>, names: Names)
    ensures var s := Run(Loaded(file, file), events, names);
            && (!s.dirty ==> s.file == s.keys)
            && s.timers <= 1
            && (s.dirty && s.timers == 0 ==> s.failed)
  {
    Reachable(file, file, events, names);
  }

  /** A save that is fired and succeeds writes the whole table, in every run and after any load. */
  lemma FiredSaveWrites(file: Table, read: Table, events: seq<Event>, names: Names)
    requires Run(Loaded(file, read), events, names).timers > 0
    ensures var s := Run(Loaded(file, read), events, names); var t := Step(s, Fire(true), names);
            t.file == t.keys == s.keys && !t.dirty && t.timers == 0
  {
    Reachable(file, read, events, names);
  }

  predicate NoneRefused(events: seq<Event>) {
    forall e | e in events && e.Fire? :: e.ok
  }

  /** While no save is refused, the table is dirty exactly while a timer is pending, so that it will be saved. */
  lemma {:induction false} DirtyExactlyWhilePending(file: Table, read: Table, events: seq<Event>, names: Names)
    requires NoneRefused(events)
    ensures var s := Run(Loaded(file, read), events, names); s.dirty <==> s.timers == 1
  {
    if events != [] {
      var before := events[..|events| - 1];
      assert events == before + [events[|events| - 1]];
      DirtyExactlyWhilePending(file, read, before, names);
      Reachable(file, read, before, names);
      assert events[|events| - 1] in events;
    }
  }

  /** Since the last save that was fired and refused nothing was set. */
  predicate Refused(start: Store, events: seq<Event>, names: Names) {
    if events == [] then false
    else
      var before := events[..|events| - 1];
      match events[|events| - 1]
      case Set(keystring, _) => Parse(keystring).None? && Refused(start, before, names)
      case Fire(ok) => if Run(start, before, names).timers > 0 then !ok else Refused(start, before, names)
  }

  /** The table is dirty with no timer pending exactly after a refused save, until the next set. */
  lemma {:induction false} UnsavedExactlyWhen(file: Table, read: Table, events: seq<Event>, names: Names)
    ensures var s := Run(Loaded(file, read), events, names);
            s.dirty && s.timers == 0 <==> Refused(Loaded(file, read), events, names)
  {
    if events != [] {
      UnsavedExactlyWhen(file, read, events[..|events| - 1], names);
      Reachable(file, read, events[..|events| - 1], names);
    }
  }

  /** After any load, a clean table is on disk exactly when it was saved once or the whole file had been read. */
  lemma AgreesExactlyWhen(file: Table, read: Table, events: seq<Event>, names: Names)
    requires !Run(Loaded(file, read), events, names).dirty
    ensures var s := Run(Loaded(file, read), events, names);
            s.file == s.keys <==> s.saves > 0 || file == read
  {
    Reachable(file, read, events, names);
  }

  lemma StepFound(s: Store, e: Event, names: Names, keystring: string)
    requires Parse(keystring).Some?
    ensures var p := Parse(keystring).value;
            Found(Step(s, e, names), keystring)
            == if e.Set? && IsSetOf(e, p.group, p.key) && names(p.group, p.key) then Some(e.value)
               else Found(s, keystring)
  {
  }

  /** Reading gives the last value set for the same parsed group and key; the locale makes no difference. */
  lemma {:induction false} GetReturnsLastSet(start: Store, events: seq<Event>, names: Names, keystring: string)
    ensures Found(Run(start, events, names), keystring)
            == match Parse(keystring)
               case None => None
               case Some(p) => LastSet(start.keys, events, names, p.group, p.key)
  {
    if Parse(keystring).Some? && events != [] {
      GetReturnsLastSet(start, events[..|events| - 1], names, keystring);
      StepFound(Run(start, events[..|events| - 1], names), events[|events| - 1], names, keystring);
    }
  }

  lemma StepFile(s: Store, e: Event, names: Names)
    ensures Step(s, e, names).file in {s.file, s.keys}
  {
  }

  /** The file always holds a table the store went through, so a failed or late save loses only recent sets. */
  lemma {:induction false} FileIsAPastTable(start: Store, events: seq<Event>, names: Names) returns (n: nat)
    requires start.file == start.keys
    ensures n <= |events| && Run(start, events, names).file == Run(start, events[..n], names).keys
  {
    n := |events|;
    if events != [] {
      var before, e := events[..|events| - 1], events[|events| - 1];
      var s := Run(start, before, names);
      StepFile(s, e, names);
      if Step(s, e, names).file == s.keys {
        n := |before|;
      } else {
        n := FileIsAPastTable(start, before, names);
        assert before[..n] == events[..n];
      }
    }
  }

  // ---------- The object ----------

  /** The configuration file. */
  class ConfFile {
    var contents: Table

    constructor (contents: Table)
      ensures this.contents == contents
    {
      this.contents := contents;
    }
  }

  class Backend {
    const file: ConfFile
    const names: Names
    var keyFile: Table
    var dirty: bool
    var saveId: nat
    ghost var timers: nat
    ghost var saves: nat
    ghost var failed: bool

    ghost function State(): Store
      reads this, file
    {
      Store(keyFile, dirty, saveId != 0, file.contents, timers, saves, failed)
    }

    constructor (file: ConfFile, names: Names, read: Table)
      ensures State() == Loaded(file.contents, read) && this.file == file && this.names == names
    {
      this.file, this.names := file, names;
      keyFile := read;
      dirty, saveId, timers, saves, failed := false, 0, 0, 0, false;
    }

    method GetValue(key: string) returns (value: Option<string>)
      requires '\0' !in key
      ensures value == Found(State(), key)
    {
      var parts := ParseKeyString(key);
      match parts
      case None => return None;
      case Some(p) =>
        if (p.group, p.key) !in keyFile { return None; }
        return Some(keyFile[(p.group, p.key)]);
    }

    method SaveSettings(ok: bool)
      modifies this`dirty, this`saves, this`failed, file
      ensures State() == Saved(old(State()), ok)
      ensures file.contents == if old(dirty) && ok then keyFile else old(file.contents)
      ensures dirty == (old(dirty) && !ok)
    {
      if !dirty { return; }
      if !ok {
        failed := true;
        return;
      }
      file.contents := keyFile;
      dirty, saves, failed := false, saves + 1, false;
    }

    method SaveSettingsTimer(ok: bool)
      requires timers > 0
      modifies this, file
      ensures State() == Fired(old(State()), ok)
      ensures saveId == 0 && dirty == (old(dirty) && !ok)
      ensures file.contents == if old(dirty) && ok then keyFile else old(file.contents)
    {
      SaveSettings(ok);
      saveId := 0;
      timers := timers - 1;
    }

    /** Finalizing saves once more; a pending timer stays with the main loop. */
    method Finalize(ok: bool)
      modifies this`dirty, this`saves, this`failed, file
      ensures State() == Saved(old(State()), ok) && timers == old(timers)
    {
      SaveSettings(ok);
    }

    /** source is the identifier the main loop gives to a new timer. */
    method QueueSave(source: nat)
      requires source != 0
      modifies this`saveId, this`timers
      ensures State() == Queued(old(State()))
      ensures saveId == if dirty && old(saveId) == 0 then source else old(saveId)
    {
      if !dirty { return; }
      if saveId != 0 { return; }
      saveId := source;
      timers := timers + 1;
    }

    /** Returns the value replaced, for the change notification. */
    method SetValue(key: string, value: string, source: nat) returns (ok: bool, oldValue: Option<string>)
      requires '\0' !in key && source != 0
      modifies this
      ensures State() == WithValue(old(State()), key, value, names)
      ensures ok == Parse(key).Some? && oldValue == Found(old(State()), key)
      ensures ok ==> dirty && saveId != 0
      ensures ok ==> var p := Parse(key).value;
                     keyFile == if names(p.group, p.key) then old(keyFile)[(p.group, p.key) := value] else old(keyFile)
    {
      var parts := ParseKeyString(key);
      if parts.None? { return false, None; }
      var p := parts.value;
      oldValue := if (p.group, p.key) in keyFile then Some(keyFile[(p.group, p.key)]) else None;
      if names(p.group, p.key) {
        keyFile := keyFile[(p.group, p.key) := value];
      }
      dirty := true;
      QueueSave(source);
      ok := true;
    }
  }
}
