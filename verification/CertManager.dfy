/** One TLS handshake at a time against the certificate files (internal/web/tls.go): the override, the
    drop-in pair or the self-signed pair, with regeneration as the last resort. */
module CertManager {
  import opened CertFiles
  import opened Common

  /** What one generation leaves: the files it got to write, and whether it reported success. */
  datatype Generation = Generation(ok: bool, cert: Option<File>, key: Option<File>)

  predicate Sound(g: Generation) {
    g.ok ==> g.cert.Some? && g.key.Some? && Together(g.cert.value.data, g.key.value.data)
  }

  function Written(d: Disk, path: string, f: Option<File>): Disk {
    if f.Some? then d[path := f.value] else d
  }

  class Manager {
    const selfCert: string
    const selfKey: string
    const dropCert: string
    const dropKey: string
    var overrideCert: string
    var overrideKey: string
    var disk: Disk
    var cached: Option<KeyPair>
    var curCert: string
    var curKey: string
    var modCert: nat
    var modKey: nat

    /** The two self-signed files are two files. */
    predicate Valid() { selfCert != selfKey }

    predicate Overridden() reads this {
      overrideCert != "" && overrideKey != "" && overrideCert in disk && overrideKey in disk
    }

    predicate DroppedIn() reads this { dropCert in disk && dropKey in disk }

    /** Whether the cache entry is for these paths as they are on the disk now. */
    predicate Hit(cert: string, key: string) reads this {
      cached.Some? && curCert == cert && curKey == key && modCert == ModTime(disk, cert) && modKey == ModTime(disk, key)
    }

    method ResolvePaths() returns (cert: string, key: string)
      ensures (cert, key) == if Overridden() then (overrideCert, overrideKey)
                             else if DroppedIn() then (dropCert, dropKey) else (selfCert, selfKey)
      ensures (cert, key) != (selfCert, selfKey) ==> cert in disk && key in disk
    {
      if overrideCert != "" && overrideKey != "" && overrideCert in disk && overrideKey in disk {
        return overrideCert, overrideKey;
      }
      if dropCert in disk && dropKey in disk {
        return dropCert, dropKey;
      }
      return selfCert, selfKey;
    }

    method Generate(g: Generation)
      requires Valid() && Sound(g)
      modifies `disk
      ensures disk == Written(Written(old(disk), selfCert, g.cert), selfKey, g.key)
      ensures g.ok ==> Loads(disk, selfCert, selfKey)
    {
      if g.cert.Some? {
        disk := disk[selfCert := g.cert.value];
      }
      if g.key.Some? {
        disk := disk[selfKey := g.key.value];
      }
    }

    /** Load the self-signed pair, making it when it is not there and once more when it is broken. */
    method LoadSelfSigned(first: Generation, again: Generation) returns (pair: Option<KeyPair>)
      requires Valid() && Sound(first) && Sound(again)
      modifies `disk
      ensures disk - {selfCert, selfKey} == old(disk) - {selfCert, selfKey}
      ensures pair.Some? ==> Loads(disk, selfCert, selfKey) && pair.value == Pair(disk, selfCert, selfKey)
      ensures old(Loads(disk, selfCert, selfKey)) ==> pair.Some? && disk == old(disk)
      ensures pair.None? ==> !old(Loads(disk, selfCert, selfKey)) && !(first.ok && again.ok)
    {
      if !(selfCert in disk && selfKey in disk) {
        Generate(first);
        if !first.ok { return None; }
      }
      if Loads(disk, selfCert, selfKey) { return Some(Pair(disk, selfCert, selfKey)); }
      Generate(again);
      if !again.ok { return None; }
      return Some(Pair(disk, selfCert, selfKey));
    }

    /** An answer is the resolved pair when it loads and the self-signed pair otherwise; the self-signed
        files are written only when neither pair loads; a failed handshake leaves the cache alone. */
    method GetCertificate(first: Generation, again: Generation) returns (pair: Option<KeyPair>, cert: string, key: string)
      requires Valid() && Sound(first) && Sound(again)
      modifies `disk, `cached, `curCert, `curKey, `modCert, `modKey
      ensures (cert, key) == old(if Overridden() then (overrideCert, overrideKey)
                                 else if DroppedIn() then (dropCert, dropKey) else (selfCert, selfKey))
      ensures old(Hit(cert, key)) ==> pair == old(cached) && disk == old(disk) && cached == old(cached)
      ensures !old(Hit(cert, key)) && old(Loads(disk, cert, key)) ==>
                pair == Some(old(Pair(disk, cert, key))) && disk == old(disk)
      ensures !old(Hit(cert, key)) && !old(Loads(disk, cert, key)) && pair.Some? ==>
                Loads(disk, selfCert, selfKey) && pair.value == Pair(disk, selfCert, selfKey)
      ensures old(Loads(disk, selfCert, selfKey)) ==> pair.Some? && disk == old(disk)
      ensures disk - {selfCert, selfKey} == old(disk) - {selfCert, selfKey}
      ensures pair.Some? ==> cached == pair && curCert == cert && curKey == key
                             && modCert == old(ModTime(disk, cert)) && modKey == old(ModTime(disk, key))
      ensures pair.None? ==> cached == old(cached) && curCert == old(curCert) && curKey == old(curKey)
                             && modCert == old(modCert) && modKey == old(modKey)
    {
      cert, key := ResolvePaths();
      var certTime, keyTime := ModTime(disk, cert), ModTime(disk, key);
      if cached.Some? && curCert == cert && curKey == key && modCert == certTime && modKey == keyTime {
        return cached, cert, key;
      }
      if Loads(disk, cert, key) {
        pair := Some(Pair(disk, cert, key));
      } else {
        pair := LoadSelfSigned(first, again);
        if pair == None { return; }
      }
      cached := pair;
      curCert, curKey, modCert, modKey := cert, key, certTime, keyTime;
    }
  }

  /** Files renewed without a restart: after one successful handshake the next gives the same answer while it
      resolves the same two files with the same times, and otherwise the pair that is on the disk, if it loads. */
  method RenewedPairIsServed(m: Manager, g1: Generation, g2: Generation, g3: Generation, g4: Generation, renewed: Disk)
    returns (served: Option<KeyPair>, cert: string, key: string, next: Option<KeyPair>, cert2: string, key2: string)
    requires m.Valid() && Sound(g1) && Sound(g2) && Sound(g3) && Sound(g4)
    modifies m
    ensures served.Some? ==>
      var same := cert2 == cert && key2 == key
                  && ModTime(renewed, cert) == ModTime(old(m.disk), cert) && ModTime(renewed, key) == ModTime(old(m.disk), key);
      && (same ==> next == served && m.disk == renewed)
      && (!same && Loads(renewed, cert2, key2) ==> next == Some(Pair(renewed, cert2, key2)))
  {
    served, cert, key := m.GetCertificate(g1, g2);
    m.disk := renewed;
    next, cert2, key2 := m.GetCertificate(g3, g4);
  }

  /** A broken override or drop-in does not cost a generation at every handshake: after one successful
      handshake the next writes nothing while nobody else changes a file. */
  method NextHandshakeWritesNothing(m: Manager, g1: Generation, g2: Generation, g3: Generation, g4: Generation)
    returns (served: Option<KeyPair>, between: Disk)
    requires m.Valid() && Sound(g1) && Sound(g2) && Sound(g3) && Sound(g4)
    modifies m
    ensures served.Some? ==> m.disk == between && m.cached.Some?
  {
    var cert, key;
    served, cert, key := m.GetCertificate(g1, g2);
    between := m.disk;
    if served.Some? {
      var next, cert2, key2 := m.GetCertificate(g3, g4);
    }
  }
}
