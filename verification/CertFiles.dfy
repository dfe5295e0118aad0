/** Certificate and key files as the TLS code sees them (internal/web/tls.go). */
module CertFiles {

  /** The parsed contents of a file. A certificate and a key belong together when they carry the same key
      number; a renewed certificate for the same key has another serial number. */
  datatype Pem = Certificate(key: int, serial: int) | PrivateKey(key: int) | Malformed

  datatype File = File(mtime: nat, data: Pem)

  type Disk = map<string, File>

  /** A certificate with its key, as a handshake is answered with. */
  datatype KeyPair = KeyPair(cert: Pem, key: Pem)

  predicate Together(cert: Pem, key: Pem) {
    cert.Certificate? && key.PrivateKey? && cert.key == key.key
  }

  predicate Loads(d: Disk, cert: string, key: string) {
    cert in d && key in d && Together(d[cert].data, d[key].data)
  }

  /** The pair that two loading files hold. */
  function Pair(d: Disk, cert: string, key: string): KeyPair
    requires Loads(d, cert, key)
  {
    KeyPair(d[cert].data, d[key].data)
  }

  /** The modification time of a path, zero when there is no such file. */
  function ModTime(d: Disk, path: string): nat {
    if path in d then d[path].mtime else 0
  }
}
