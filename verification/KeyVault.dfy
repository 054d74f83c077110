/** Where a device's root secret is kept, and the four ways of keeping it: in a
    file, in the operating system's keystore, wrapped with a passphrase, or in a
    store the platform supplies. */
module KeyVault {
  import opened Wrappers

  type Byte = x: int | 0 <= x < 256

  datatype Protection = File | Keystore | Passphrase | Platform

  datatype Error =
    | Missing | NotAKeyFile | UnsupportedFormat(found: Byte) | Damaged
    | PassphraseRequired | WrongPassphrase | KeystoreFailed | AlreadyInstalled

  const MAGIC: seq<Byte> := [0x51, 0x52, 0x42, 0x4B]
  const SALT_LEN := 16
  const NONCE_LEN := 24
  const HEADER_LEN := 5 + SALT_LEN + NONCE_LEN

  function Format(p: Protection): Byte {
    match p
    case File => 1
    case Keystore => 2
    case Passphrase => 3
    case Platform => 4
  }

  predicate IsKey(key: seq<Byte>) { |key| == 32 }

  /** The passphrase's key derivation, and the cipher, as functions of what goes
      in. */
  datatype Crypto = Crypto(
    derive: (string, seq<Byte>) -> seq<Byte>,
    seal: (seq<Byte>, seq<Byte>, seq<Byte>, seq<Byte>) -> seq<Byte>,
    open: (seq<Byte>, seq<Byte>, seq<Byte>, seq<Byte>) -> Option<seq<Byte>>)
  {
    /** What is asked of an authenticated cipher: what it sealed opens under the
        same key, nonce and header, and never as anything else. */
    ghost predicate Sound() {
      forall w, w', n, m, h ::
        var got := open(w', n, seal(w, n, m, h), h);
        (got == None || got == Some(m)) && (w == w' ==> got == Some(m))
    }
  }

  /** A vault at a path, and what its process can reach: a keystore that works,
      and a platform store, if the caller supplied one. */
  datatype Vault = Vault(path: string, keystoreWorks: bool, supplied: bool, crypto: Crypto) {
    function Label(): string { "qurb:" + path }
  }

  /** Everything outside the process a vault can be kept in. */
  datatype Kept = Kept(files: map<string, seq<Byte>>, keystore: map<string, string>, platform: map<string, seq<Byte>>)

  // ----- hexadecimal, as the keystore holds it

  function Digit(n: nat): char
    requires n < 16
  {
    if n < 10 then ('0' as int + n) as char else ('a' as int + n - 10) as char
  }

  function DigitValue(c: char): Option<nat> {
    if '0' <= c <= '9' then Some(c as int - '0' as int)
    else if 'a' <= c <= 'f' then Some(c as int - 'a' as int + 10)
    else if 'A' <= c <= 'F' then Some(c as int - 'A' as int + 10)
    else None
  }

  /** `u8::from_str_radix` on two characters: two digits of either case, or one
      after a plus sign. */
  function PairValue(a: char, b: char): (r: Option<Byte>) {
    match (DigitValue(a), DigitValue(b))
    case (Some(x), Some(y)) => Some(16 * x + y)
    case (None, Some(y)) => if a == '+' then Some(y) else None
    case _ => None
  }

  function Hex(key: seq<Byte>): (text: string)
    ensures |text| == 2 * |key|
    ensures forall i | 0 <= i < |key| :: text[2 * i] == Digit(key[i] / 16) && text[2 * i + 1] == Digit(key[i] % 16)
  {
    if key == [] then ""
    else
      var n := |key| - 1;
      Hex(key[..n]) + [Digit(key[n] / 16), Digit(key[n] % 16)]
  }

  /** `text` reads back as `key`. */
  predicate ReadsAs(text: string, key: seq<Byte>) {
    |text| == 2 * |key|
    && forall i | 0 <= i < |key| :: PairValue(text[2 * i], text[2 * i + 1]) == Some(key[i])
  }

  method Unhex(text: string) returns (r: Option<seq<Byte>>)
    ensures forall key: seq<Byte> :: r == Some(key) <==> IsKey(key) && ReadsAs(text, key)
  {
    if |text| != 64 {
      return None;
    }
    var out: seq<Byte> := [];
    for i := 0 to 32
      invariant |out| == i
      invariant forall k | 0 <= k < i :: PairValue(text[2 * k], text[2 * k + 1]) == Some(out[k])
    {
      match PairValue(text[2 * i], text[2 * i + 1]) {
        case None => return None;
        case Some(byte) => out := out + [byte];
      }
    }
    forall key: seq<Byte> | ReadsAs(text, key) ensures key == out { ReadsAsOne(text, key, out); }
    return Some(out);
  }

  lemma HexReadsBack(key: seq<Byte>)
    ensures ReadsAs(Hex(key), key)
  {
    forall n: nat | n < 16 ensures DigitValue(Digit(n)) == Some(n) {}
  }

  lemma ReadsAsOne(text: string, a: seq<Byte>, b: seq<Byte>)
    requires ReadsAs(text, a) && ReadsAs(text, b)
    ensures a == b
  {
    assert |a| == |b|;
    forall i | 0 <= i < |a| ensures a[i] == b[i] {
      assert PairValue(text[2 * i], text[2 * i + 1]) == Some(a[i]);
      assert PairValue(text[2 * i], text[2 * i + 1]) == Some(b[i]);
    }
  }

  /** The one key a text reads back as, if it does. */
  function Unhexed(text: string): (r: Option<seq<Byte>>)
    ensures forall key: seq<Byte> :: r == Some(key) <==> IsKey(key) && ReadsAs(text, key)
  {
    if |text| == 64 && forall i | 0 <= i < 32 :: PairValue(text[2 * i], text[2 * i + 1]).Some? then
      var key := seq(32, i requires 0 <= i < 32 => PairValue(text[2 * i], text[2 * i + 1]).value);
      assert forall other: seq<Byte> :: IsKey(other) && ReadsAs(text, other) ==> other == key by {
        forall other: seq<Byte> | IsKey(other) && ReadsAs(text, other) ensures other == key {
          ReadsAsOne(text, other, key);
        }
      }
      Some(key)
    else None
  }

  // ----- the file's formats

  function Marker(p: Protection): seq<Byte> { MAGIC + [Format(p)] }

  function Wrapped(crypto: Crypto, key: seq<Byte>, passphrase: string, salt: seq<Byte>, nonce: seq<Byte>): seq<Byte> {
    var header := Marker(Passphrase) + salt + nonce;
    header + crypto.seal(crypto.derive(passphrase, salt), nonce, key, header)
  }

  function Unwrap(crypto: Crypto, bytes: seq<Byte>, passphrase: string): Result<seq<Byte>, Error> {
    if |bytes| < HEADER_LEN then Err(Damaged)
    else
      var header, sealed := bytes[..HEADER_LEN], bytes[HEADER_LEN..];
      var salt, nonce := header[5..5 + SALT_LEN], header[5 + SALT_LEN..];
      match crypto.open(crypto.derive(passphrase, salt), nonce, sealed, header)
      case None => Err(WrongPassphrase)
      case Some(key) => if IsKey(key) then Ok(key) else Err(Damaged)
  }

  lemma UnwrapWrapped(crypto: Crypto, key: seq<Byte>, passphrase: string, salt: seq<Byte>, nonce: seq<Byte>,
      typed: string)
    requires crypto.Sound() && IsKey(key) && |salt| == SALT_LEN && |nonce| == NONCE_LEN
    ensures var r := Unwrap(crypto, Wrapped(crypto, key, passphrase, salt, nonce), typed);
            (r == Ok(key) || r == Err(WrongPassphrase)) && (typed == passphrase ==> r == Ok(key))
  {
    var header := Marker(Passphrase) + salt + nonce;
    var bytes := Wrapped(crypto, key, passphrase, salt, nonce);
    assert bytes[..HEADER_LEN] == header;
    assert header[5..5 + SALT_LEN] == salt && header[5 + SALT_LEN..] == nonce;
    assert bytes[HEADER_LEN..] == crypto.seal(crypto.derive(passphrase, salt), nonce, key, header);
  }

  // ----- reading

  function ProtectionOf(v: Vault, k: Kept): Result<Protection, Error> {
    if v.path !in k.files then Err(Missing)
    else
      var bytes := k.files[v.path];
      if |bytes| < 5 || bytes[..4] != MAGIC then Err(NotAKeyFile)
      else if bytes[4] == 1 then Ok(File)
      else if bytes[4] == 2 then Ok(Keystore)
      else if bytes[4] == 3 then Ok(Passphrase)
      else if bytes[4] == 4 then Ok(Platform)
      else Err(UnsupportedFormat(bytes[4]))
  }

  function Unlock(v: Vault, k: Kept, passphrase: Option<string>): Result<seq<Byte>, Error> {
    match ProtectionOf(v, k)
    case Err(e) => Err(e)
    case Ok(File) => if |k.files[v.path]| != 37 then Err(NotAKeyFile) else Ok(k.files[v.path][5..])
    case Ok(Keystore) =>
      if !v.keystoreWorks || v.path !in k.keystore then Err(KeystoreFailed)
      else
        (match Unhexed(k.keystore[v.path])
         case None => Err(KeystoreFailed)
         case Some(key) => Ok(key))
    case Ok(Passphrase) =>
      (match passphrase
       case None => Err(PassphraseRequired)
       case Some(p) => Unwrap(v.crypto, k.files[v.path], p))
    case Ok(Platform) =>
      if !v.supplied || v.Label() !in k.platform || |k.platform[v.Label()]| != 32 then Err(KeystoreFailed)
      else Ok(k.platform[v.Label()])
  }

  // ----- writing

  /** Fresh random bytes for a wrapping. */
  datatype Random = Random(salt: seq<Byte>, nonce: seq<Byte>) {
    predicate Valid() { |salt| == SALT_LEN && |nonce| == NONCE_LEN }
  }

  /** What writing a key in some way leaves, or why it is refused before anything
      is written. */
  function Written(v: Vault, k: Kept, key: seq<Byte>, to: Protection, passphrase: Option<string>, random: Random)
    : Result<Kept, Error>
  {
    match to
    case File => Ok(k.(files := k.files[v.path := Marker(File) + key]))
    case Keystore =>
      if !v.keystoreWorks then Err(KeystoreFailed)
      else Ok(k.(keystore := k.keystore[v.path := Hex(key)], files := k.files[v.path := Marker(Keystore)]))
    case Passphrase =>
      (match passphrase
       case None => Err(PassphraseRequired)
       case Some(p) => Ok(k.(files := k.files[v.path := Wrapped(v.crypto, key, p, random.salt, random.nonce)])))
    case Platform =>
      if !v.supplied then Err(KeystoreFailed)
      else Ok(k.(platform := k.platform[v.Label() := key], files := k.files[v.path := Marker(Platform)]))
  }

  function Protected(v: Vault, k: Kept, to: Protection, current: Option<string>, next: Option<string>, random: Random)
    : Result<Kept, Error>
  {
    match ProtectionOf(v, k)
    case Err(e) => Err(e)
    case Ok(from) =>
      match Unlock(v, k, current)
      case Err(e) => Err(e)
      case Ok(key) =>
        match Written(v, k, key, to, next, random)
        case Err(e) => Err(e)
        case Ok(w) =>
          Ok(if from == Keystore && to != Keystore then w.(keystore := w.keystore - {v.path})
             else if from == Platform && to != Platform then w.(platform := w.platform - {v.Label()})
             else w)
  }

  /** The machine the vaults are on. Its methods change what is kept in the
      order the program does, and stop where it stops. */
  class Machine {
    var files: map<string, seq<Byte>>
    var keystore: map<string, string>
    var platform: map<string, seq<Byte>>

    function Now(): Kept
      reads this
    {
      Kept(files, keystore, platform)
    }

    method WriteWith(v: Vault, key: seq<Byte>, to: Protection, passphrase: Option<string>, random: Random)
      returns (r: Result<(), Error>)
      modifies this
      ensures match Written(v, old(Now()), key, to, passphrase, random)
              case Ok(k) => r.Ok? && Now() == k
              case Err(e) => r == Err(e) && Now() == old(Now())
    {
      var bytes;
      match to {
        case File =>
          bytes := MAGIC + [1] + key;
        case Keystore =>
          if !v.keystoreWorks { return Err(KeystoreFailed); }
          keystore := keystore[v.path := Hex(key)];
          bytes := MAGIC + [2];
        case Passphrase =>
          if passphrase == None { return Err(PassphraseRequired); }
          bytes := Wrapped(v.crypto, key, passphrase.value, random.salt, random.nonce);
        case Platform =>
          if !v.supplied { return Err(KeystoreFailed); }
          platform := platform[v.Label() := key];
          bytes := MAGIC + [4];
      }
      files := files - {v.path};
      files := files[v.path := bytes];
      assert files == old(files)[v.path := bytes];
      return Ok(());
    }

    method Protect(v: Vault, to: Protection, current: Option<string>, next: Option<string>, random: Random)
      returns (r: Result<(), Error>)
      modifies this
      ensures match Protected(v, old(Now()), to, current, next, random)
              case Ok(k) => r.Ok? && Now() == k
              case Err(e) => r == Err(e) && Now() == old(Now())
    {
      var from := ProtectionOf(v, Now());
      if from.Err? { return Err(from.error); }
      var key := Unlock(v, Now(), current);
      if key.Err? { return Err(key.error); }
      r := WriteWith(v, key.value, to, next, random);
      if r.Err? { return; }
      // what it was kept in goes last
      if from.value == Keystore && to != Keystore {
        keystore := keystore - {v.path};
      }
      if from.value == Platform && to != Platform {
        platform := platform - {v.Label()};
      }
    }

    /** The key, and whether it was made just now. */
    method OpenOrCreate(v: Vault, to: Protection, passphrase: Option<string>, generated: seq<Byte>, random: Random)
      returns (r: Result<(seq<Byte>, bool), Error>)
      modifies this
      ensures var (k, out) := OpenedOrCreated(v, old(Now()), to, passphrase, generated, random); Now() == k && r == out
    {
      if v.path in files {
        var key := Unlock(v, Now(), passphrase);
        return match key case Ok(key) => Ok((key, false)) case Err(e) => Err(e);
      }
      var written := WriteWith(v, generated, to, passphrase, random);
      return match written case Ok(_) => Ok((generated, true)) case Err(e) => Err(e);
    }

    /** Installing a key recovered from its phrase: never over one that is there. */
    method RestoreWith(v: Vault, recovered: seq<Byte>, to: Protection, passphrase: Option<string>, random: Random)
      returns (r: Result<seq<Byte>, Error>)
      modifies this
      ensures var (k, out) := Restored(v, old(Now()), recovered, to, passphrase, random); Now() == k && r == out
    {
      if v.path in files {
        return Err(AlreadyInstalled);
      }
      var written := WriteWith(v, recovered, to, passphrase, random);
      return match written case Ok(_) => Ok(recovered) case Err(e) => Err(e);
    }
  }

  function OpenedOrCreated(v: Vault, k: Kept, to: Protection, passphrase: Option<string>, generated: seq<Byte>,
      random: Random)
    : (Kept, Result<(seq<Byte>, bool), Error>)
  {
    if v.path in k.files then
      (k, match Unlock(v, k, passphrase) case Ok(key) => Ok((key, false)) case Err(e) => Err(e))
    else
      match Written(v, k, generated, to, passphrase, random)
      case Ok(w) => (w, Ok((generated, true)))
      case Err(e) => (k, Err(e))
  }

  function Restored(v: Vault, k: Kept, recovered: seq<Byte>, to: Protection, passphrase: Option<string>, random: Random)
    : (Kept, Result<seq<Byte>, Error>)
  {
    if v.path in k.files then (k, Err(AlreadyInstalled))
    else
      match Written(v, k, recovered, to, passphrase, random)
      case Ok(w) => (w, Ok(recovered))
      case Err(e) => (k, Err(e))
  }

  // ----- one key, for life

  /** Nothing of this vault is anywhere yet. */
  predicate Empty(v: Vault, k: Kept) {
    v.path !in k.files && v.path !in k.keystore && v.Label() !in k.platform
  }

  /** The key is in exactly the one place the file's format byte names. */
  ghost predicate KeptOnce(v: Vault, k: Kept, key: seq<Byte>, passphrase: Option<string>) {
    && IsKey(key) && ProtectionOf(v, k).Ok?
    && (v.path in k.keystore <==> ProtectionOf(v, k) == Ok(Keystore))
    && (v.Label() in k.platform <==> ProtectionOf(v, k) == Ok(Platform))
    && match ProtectionOf(v, k).value
       case File => k.files[v.path] == Marker(File) + key
       case Keystore => k.files[v.path] == Marker(Keystore) && k.keystore[v.path] == Hex(key)
       case Platform => k.files[v.path] == Marker(Platform) && k.platform[v.Label()] == key
       case Passphrase =>
         passphrase.Some? && exists random: Random ::
           random.Valid() && k.files[v.path] == Wrapped(v.crypto, key, passphrase.value, random.salt, random.nonce)
  }

  /** A key kept once is the only thing unlocking can ever give; and with the
      right passphrase, and what it is kept in at hand, unlocking gives it. */
  lemma UnlockGivesTheKey(v: Vault, k: Kept, key: seq<Byte>, passphrase: Option<string>, typed: Option<string>)
    requires v.crypto.Sound() && KeptOnce(v, k, key, passphrase)
    ensures Unlock(v, k, typed).Ok? ==> Unlock(v, k, typed) == Ok(key)
    ensures Unlock(v, k, typed).Ok? <==>
              match ProtectionOf(v, k).value
              case File => true
              case Keystore => v.keystoreWorks
              case Platform => v.supplied
              case Passphrase => typed.Some? && Unwrap(v.crypto, k.files[v.path], typed.value).Ok?
    ensures ProtectionOf(v, k) == Ok(Passphrase) && typed == passphrase ==> Unlock(v, k, typed) == Ok(key)
  {
    match ProtectionOf(v, k).value
    case File =>
      assert (Marker(File) + key)[5..] == key;
    case Keystore =>
      HexReadsBack(key);
    case Platform =>
    case Passphrase =>
      var random: Random :| random.Valid()
        && k.files[v.path] == Wrapped(v.crypto, key, passphrase.value, random.salt, random.nonce);
      if typed.Some? {
        UnwrapWrapped(v.crypto, key, passphrase.value, random.salt, random.nonce, typed.value);
      }
  }

  /** Writing a key somewhere new leaves it there; whatever was kept elsewhere is
      for the caller to remove. */
  lemma WrittenIsThere(v: Vault, k: Kept, key: seq<Byte>, to: Protection, passphrase: Option<string>, random: Random)
    requires IsKey(key) && random.Valid() && Written(v, k, key, to, passphrase, random).Ok?
    requires to != Keystore ==> v.path !in k.keystore
    requires to != Platform ==> v.Label() !in k.platform
    ensures KeptOnce(v, Written(v, k, key, to, passphrase, random).value, key, passphrase)
    ensures ProtectionOf(v, Written(v, k, key, to, passphrase, random).value) == Ok(to)
  {
    var w := Written(v, k, key, to, passphrase, random).value;
    var bytes := w.files[v.path];
    assert bytes[..4] == MAGIC && bytes[4] == Format(to);
  }

  datatype Call =
    | OpenOrCreate(to: Protection, passphrase: Option<string>, generated: seq<Byte>, random: Random)
    | Protect(to: Protection, current: Option<string>, next: Option<string>, random: Random)
    | Restore(recovered: seq<Byte>, to: Protection, passphrase: Option<string>, random: Random)
  {
    predicate Valid() {
      random.Valid() && (OpenOrCreate? ==> IsKey(generated)) && (Restore? ==> IsKey(recovered))
    }
  }

  /** A call, and what of the two stores can be reached while it is made. */
  datatype Use = Use(call: Call, keystoreWorks: bool, supplied: bool)

  /** The vault as it is while a call is made: its place and its cipher never change. */
  function At(v: Vault, u: Use): Vault { v.(keystoreWorks := u.keystoreWorks, supplied := u.supplied) }

  predicate AllValid(uses: seq<Use>) { forall i | 0 <= i < |uses| :: uses[i].call.Valid() }

  /** What a call leaves: refused, it leaves everything as it was. */
  function After(v: Vault, k: Kept, call: Call): Kept {
    match call
    case OpenOrCreate(to, p, generated, random) => OpenedOrCreated(v, k, to, p, generated, random).0
    case Restore(key, to, p, random) => Restored(v, k, key, to, p, random).0
    case Protect(to, current, next, random) =>
      (match Protected(v, k, to, current, next, random) case Ok(w) => w case Err(_) => k)
  }

  function AfterAll(v: Vault, k: Kept, uses: seq<Use>): Kept {
    if uses == [] then k
    else
      var n := |uses| - 1;
      After(At(v, uses[n]), AfterAll(v, k, uses[..n]), uses[n].call)
  }

  /** The passphrase in force: the one given when the key was last wrapped. */
  function PassphraseAfter(v: Vault, k: Kept, passphrase: Option<string>, call: Call): Option<string> {
    match call
    case OpenOrCreate(_, p, _, _) => if v.path in k.files then passphrase else p
    case Restore(_, _, p, _) => if v.path in k.files then passphrase else p
    case Protect(to, current, next, random) =>
      if Protected(v, k, to, current, next, random).Ok? then next else passphrase
  }

  /** The passphrase in force after any calls, `p` having been in force before them. */
  function PassphraseAfterAll(v: Vault, k: Kept, p: Option<string>, uses: seq<Use>): Option<string> {
    if uses == [] then p
    else
      var n := |uses| - 1;
      PassphraseAfter(At(v, uses[n]), AfterAll(v, k, uses[..n]), PassphraseAfterAll(v, k, p, uses[..n]), uses[n].call)
  }

  /** The key a call installs, where there was none. */
  function Installs(v: Vault, k: Kept, call: Call): Option<seq<Byte>> {
    if v.path in k.files then None
    else
      match call
      case OpenOrCreate(to, p, key, random) => if Written(v, k, key, to, p, random).Ok? then Some(key) else None
      case Restore(key, to, p, random) => if Written(v, k, key, to, p, random).Ok? then Some(key) else None
      case Protect(_, _, _, _) => None
  }

  /** The first key any of the calls installed. */
  function FirstKey(v: Vault, k: Kept, uses: seq<Use>): Option<seq<Byte>> {
    if uses == [] then None
    else
      var n := |uses| - 1;
      var before := FirstKey(v, k, uses[..n]);
      if before.Some? then before else Installs(At(v, uses[n]), AfterAll(v, k, uses[..n]), uses[n].call)
  }

  /** No call changes the key: it is kept once before and once after, under
      whatever passphrase is then in force. */
  lemma CallKeepsTheKey(v: Vault, k: Kept, key: seq<Byte>, passphrase: Option<string>, call: Call)
    requires v.crypto.Sound() && call.Valid() && KeptOnce(v, k, key, passphrase)
    ensures KeptOnce(v, After(v, k, call), key, PassphraseAfter(v, k, passphrase, call))
  {
    if call.Protect? && Protected(v, k, call.to, call.current, call.next, call.random).Ok? {
      UnlockGivesTheKey(v, k, key, passphrase, call.current);
      ProtectKeepsOnce(v, k, key, passphrase, call.to, call.current, call.next, call.random);
    }
  }

  /** Protecting moves the key: afterwards it is where it was asked to be, and
      nowhere else. */
  lemma ProtectKeepsOnce(v: Vault, k: Kept, key: seq<Byte>, passphrase: Option<string>,
                         to: Protection, current: Option<string>, next: Option<string>, random: Random)
    requires v.crypto.Sound() && random.Valid() && KeptOnce(v, k, key, passphrase)
    requires Protected(v, k, to, current, next, random).Ok?
    ensures KeptOnce(v, Protected(v, k, to, current, next, random).value, key, next)
    ensures ProtectionOf(v, Protected(v, k, to, current, next, random).value) == Ok(to)
  {
    UnlockGivesTheKey(v, k, key, passphrase, current);
    var from := ProtectionOf(v, k).value;
    // Removing the old entry first would leave the same; the program does it last.
    var cleared := k.(keystore := if to == Keystore then k.keystore else k.keystore - {v.path},
                      platform := if to == Platform then k.platform else k.platform - {v.Label()});
    WrittenIsThere(v, cleared, key, to, next, random);
    var w := Written(v, cleared, key, to, next, random).value;
    var p := Protected(v, k, to, current, next, random).value;
    assert p.files == w.files;
    assert from != Keystore ==> k.keystore - {v.path} == k.keystore;
    assert from != Platform ==> k.platform - {v.Label()} == k.platform;
    assert p.keystore == w.keystore && p.platform == w.platform;
  }

  /** Nor does any run of calls, the stores coming and going between them: the key is kept
      once, under the last passphrase given. */
  lemma {:induction false} KeyIsKept(v: Vault, k: Kept, uses: seq<Use>, key: seq<Byte>, p: Option<string>)
    requires v.crypto.Sound() && AllValid(uses) && KeptOnce(v, k, key, p)
    ensures KeptOnce(v, AfterAll(v, k, uses), key, PassphraseAfterAll(v, k, p, uses))
  {
    if uses != [] {
      var n := |uses| - 1;
      var w, before, now := At(v, uses[n]), AfterAll(v, k, uses[..n]), PassphraseAfterAll(v, k, p, uses[..n]);
      KeyIsKept(v, k, uses[..n], key, p);
      StoresComeAndGo(v, uses[n], before, key, now);
      CallKeepsTheKey(w, before, key, now, uses[n].call);
      hide KeptOnce, After, PassphraseAfter;
      StoresComeAndGo(v, uses[n], After(w, before, uses[n].call), key, PassphraseAfter(w, before, now, uses[n].call));
    }
  }

  /** Where a key is kept does not depend on which stores can be reached. */
  lemma StoresComeAndGo(v: Vault, u: Use, k: Kept, key: seq<Byte>, p: Option<string>)
    ensures KeptOnce(At(v, u), k, key, p) <==> KeptOnce(v, k, key, p)
  {}

  /** Over any calls on a new vault, in any order, succeeding or refused: until one
      installs a key there is nothing, and from then on there is that key, for life, in
      exactly one place and under the last passphrase given. */
  lemma {:induction false} OneKeyForLife(v: Vault, k: Kept, uses: seq<Use>)
    requires v.crypto.Sound() && Empty(v, k) && AllValid(uses)
    ensures match FirstKey(v, k, uses)
            case None => AfterAll(v, k, uses) == k
            case Some(key) => KeptOnce(v, AfterAll(v, k, uses), key, PassphraseAfterAll(v, k, None, uses))
  {
    if uses != [] {
      var n := |uses| - 1;
      var u, w, call := uses[n], At(v, uses[n]), uses[n].call;
      var before, p := AfterAll(v, k, uses[..n]), PassphraseAfterAll(v, k, None, uses[..n]);
      OneKeyForLife(v, k, uses[..n]);
      match FirstKey(v, k, uses[..n])
      case Some(key) =>
        StoresComeAndGo(v, u, before, key, p);
        CallKeepsTheKey(w, before, key, p, call);
        hide KeptOnce, After, PassphraseAfter;
        StoresComeAndGo(v, u, After(w, before, call), key, PassphraseAfter(w, before, p, call));
      case None =>
        if Installs(w, k, call).Some? {
          InstalledIsKept(w, k, call);
          hide KeptOnce, After, PassphraseAfter;
          StoresComeAndGo(v, u, After(w, k, call), Installs(w, k, call).value, PassphraseAfter(w, k, p, call));
        } else {
          assert ProtectionOf(w, k).Err?;
        }
    }
  }

  lemma InstalledIsKept(v: Vault, k: Kept, call: Call)
    requires Empty(v, k) && call.Valid() && Installs(v, k, call).Some?
    ensures forall p :: KeptOnce(v, After(v, k, call), Installs(v, k, call).value, PassphraseAfter(v, k, p, call))
  {
    match call
    case OpenOrCreate(to, p, key, random) => WrittenIsThere(v, k, key, to, p, random);
    case Restore(key, to, p, random) => WrittenIsThere(v, k, key, to, p, random);
  }

  lemma {:induction false} FirstStands(v: Vault, k: Kept, uses: seq<Use>, first: nat)
    requires first <= |uses| && FirstKey(v, k, uses[..first]).Some?
    ensures FirstKey(v, k, uses) == FirstKey(v, k, uses[..first])
    decreases |uses|
  {
    hide Installs;
    if first == |uses| {
      assert uses[..first] == uses;
    } else {
      assert uses[..|uses| - 1][..first] == uses[..first];
      FirstStands(v, k, uses[..|uses| - 1], first);
    }
  }

  /** The key given out when it was made is the only one any later unlock gives, whichever
      stores can then be reached; and the last passphrase given unlocks it, if they both
      can. */
  lemma FirstKeyIsTheKey(v: Vault, k: Kept, uses: seq<Use>, first: nat, w: Vault, typed: Option<string>)
    requires v.crypto.Sound() && Empty(v, k) && AllValid(uses) && w.path == v.path && w.crypto == v.crypto
    requires first < |uses| && uses[first].call.OpenOrCreate?
    requires var c := uses[first].call;
             var out := OpenedOrCreated(At(v, uses[first]), AfterAll(v, k, uses[..first]),
                                        c.to, c.passphrase, c.generated, c.random).1;
             out.Ok? && out.value.1
    ensures var key, end := uses[first].call.generated, AfterAll(v, k, uses);
      && (Unlock(w, end, typed).Ok? ==> Unlock(w, end, typed) == Ok(key))
      && (w.keystoreWorks && w.supplied ==> Unlock(w, end, PassphraseAfterAll(v, k, None, uses)) == Ok(key))
  {
    var key, end := uses[first].call.generated, AfterAll(v, k, uses);
    var last := PassphraseAfterAll(v, k, None, uses);
    assert uses[..first + 1][..first] == uses[..first];
    MadeIsFirst(v, k, uses, first);
    FirstStands(v, k, uses, first + 1);
    OneKeyForLife(v, k, uses);
    StoresComeAndGo(v, Use(uses[first].call, w.keystoreWorks, w.supplied), end, key, last);
    hide FirstKey, AfterAll, PassphraseAfterAll, OpenedOrCreated;
    UnlockGivesTheKey(w, end, key, last, typed);
    UnlockGivesTheKey(w, end, key, last, last);
    hide KeptOnce, Unlock;
  }

  lemma MadeIsFirst(v: Vault, k: Kept, uses: seq<Use>, first: nat)
    requires v.crypto.Sound() && Empty(v, k) && AllValid(uses) && first < |uses| && uses[first].call.OpenOrCreate?
    requires var c := uses[first].call;
             var out := OpenedOrCreated(At(v, uses[first]), AfterAll(v, k, uses[..first]),
                                        c.to, c.passphrase, c.generated, c.random).1;
             out.Ok? && out.value.1
    ensures FirstKey(v, k, uses[..first + 1]) == Some(uses[first].call.generated)
  {
    assert uses[..first + 1][..first] == uses[..first];
    OneKeyForLife(v, k, uses[..first]);
    hide Unlock, Written, PassphraseAfterAll;
  }

  /** The machine is the same to a vault that looks only at its own entries. */
  predicate Alike(v: Vault, a: Kept, b: Kept) {
    && (v.path in a.files <==> v.path in b.files) && (v.path in a.files ==> a.files[v.path] == b.files[v.path])
    && (v.path in a.keystore <==> v.path in b.keystore)
    && (v.path in a.keystore ==> a.keystore[v.path] == b.keystore[v.path])
    && (v.Label() in a.platform <==> v.Label() in b.platform)
    && (v.Label() in a.platform ==> a.platform[v.Label()] == b.platform[v.Label()])
  }

  lemma WritingElsewhere(v: Vault, other: Vault, k: Kept, key: seq<Byte>, to: Protection, p: Option<string>,
      random: Random)
    requires v.path != other.path && Written(v, k, key, to, p, random).Ok?
    ensures Alike(other, k, Written(v, k, key, to, p, random).value)
  {
    assert v.Label()[5..] == v.path && other.Label()[5..] == other.path;
  }

  /** Two stores on one machine do not fight over an entry: no call on one vault
      changes how another is kept or what unlocks it. */
  lemma OtherVaultsUntouched(v: Vault, other: Vault, k: Kept, call: Call, typed: Option<string>)
    requires v.path != other.path
    ensures Alike(other, k, After(v, k, call))
    ensures ProtectionOf(other, After(v, k, call)) == ProtectionOf(other, k)
    ensures Unlock(other, After(v, k, call), typed) == Unlock(other, k, typed)
  {
    hide Unlock, ProtectionOf, Written;
    assert v.Label()[5..] == v.path && other.Label()[5..] == other.path;
    match call {
      case OpenOrCreate(to, p, key, random) =>
        if Written(v, k, key, to, p, random).Ok? { WritingElsewhere(v, other, k, key, to, p, random); }
      case Restore(key, to, p, random) =>
        if Written(v, k, key, to, p, random).Ok? { WritingElsewhere(v, other, k, key, to, p, random); }
      case Protect(to, current, next, random) =>
        if Protected(v, k, to, current, next, random).Ok? {
          WritingElsewhere(v, other, k, Unlock(v, k, current).value, to, next, random);
        }
    }
    UnlockAlike(other, k, After(v, k, call), typed);
  }

  lemma UnlockAlike(v: Vault, a: Kept, b: Kept, typed: Option<string>)
    requires Alike(v, a, b)
    ensures ProtectionOf(v, a) == ProtectionOf(v, b) && Unlock(v, a, typed) == Unlock(v, b, typed)
  {
    hide Unwrap, Unhexed;
  }
}
