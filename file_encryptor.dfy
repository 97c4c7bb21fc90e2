/** XOR file obfuscation: a password is hashed into a 32-byte key and every
    byte of the file is XOR-ed with the key byte at the same position
    modulo the key length. The same transform encrypts and decrypts. */
module FileEncryptor {
  import opened Wrappers
  import opened Text

  const KeyLength: nat := 32

  /** A SHA-256 digest: always 32 bytes. */
  type Digest = k: seq<bv8> | |k| == KeyLength witness seq(KeyLength, _ => 0 as bv8)

  /** `hashlib.sha256(password.encode()).digest()`, passed in as a function
      because the hash itself is not part of this model. */
  type PasswordHash = string -> Digest

  /** `generate_key`: a 32-byte key, hence never empty. */
  function GenerateKey(sha256: PasswordHash, password: string): (key: seq<bv8>)
    ensures |key| == KeyLength && key != []
  {
    sha256(password)
  }

  /** `xor_encrypt_decrypt`: byte `i` of the output is byte `i` of the data
      XOR key byte `i mod |key|`. An empty key is only usable on empty
      data (Python raises ZeroDivisionError otherwise). */
  function XorTransform(data: seq<bv8>, key: seq<bv8>): (r: seq<bv8>)
    requires key != [] || data == []
    ensures |r| == |data|
    ensures forall i :: 0 <= i < |data| ==> r[i] == data[i] ^ key[i % |key|]
  {
    seq(|data|, i requires 0 <= i < |data| => data[i] ^ key[i % |key|])
  }

  /** Applying the transform twice with the same key gives back the data. */
  lemma XorInvolution(data: seq<bv8>, key: seq<bv8>)
    requires key != [] || data == []
    ensures XorTransform(XorTransform(data, key), key) == data
  {
    var once := XorTransform(data, key);
    var twice := XorTransform(once, key);
    forall i | 0 <= i < |data| ensures twice[i] == data[i] {
      assert twice[i] == (data[i] ^ key[i % |key|]) ^ key[i % |key|];
    }
  }

  /** Files by path, holding their bytes. */
  type Files = map<string, seq<bv8>>

  datatype FileError = FileNotFound | InvalidOption

  /** `encrypt_file`: reads the file, transforms it with the password's key
      and writes it back in place; nothing else changes. */
  function EncryptFile(files: Files, path: string, password: string, sha256: PasswordHash): (r: Result<Files, FileError>)
    ensures r.Ok? <==> path in files
    ensures r.Ok? ==> r.value.Keys == files.Keys
    ensures r.Ok? ==> r.value[path] == XorTransform(files[path], GenerateKey(sha256, password))
    ensures r.Ok? ==> forall p :: p in files && p != path ==> r.value[p] == files[p]
  {
    if path !in files then Err(FileNotFound)
    else Ok(files[path := XorTransform(files[path], GenerateKey(sha256, password))])
  }

  /** `decrypt_file` is `encrypt_file` under another name: both derive the
      key the same way and apply the same transform. */
  function DecryptFile(files: Files, path: string, password: string, sha256: PasswordHash): (r: Result<Files, FileError>)
    ensures r == EncryptFile(files, path, password, sha256)
  {
    if path !in files then Err(FileNotFound)
    else
      var key := GenerateKey(sha256, password);
      Ok(files[path := XorTransform(files[path], key)])
  }

  /** Decrypting with the password used to encrypt restores every file. */
  lemma DecryptUndoesEncrypt(files: Files, path: string, password: string, sha256: PasswordHash)
    requires path in files
    ensures DecryptFile(EncryptFile(files, path, password, sha256).value, path, password, sha256) == Ok(files)
  {
    var key := GenerateKey(sha256, password);
    XorInvolution(files[path], key);
    var encrypted := EncryptFile(files, path, password, sha256).value;
    assert encrypted[path := files[path]] == files;
  }

  /** `main`: the path must name an existing file, then the action, folded
      to lower case, selects encryption ("e") or decryption ("d"). */
  function Run(files: Files, path: string, password: string, action: string, sha256: PasswordHash): (r: Result<Files, FileError>)
    ensures path !in files ==> r == Err(FileNotFound)
    ensures path in files && Lower(action) != "e" && Lower(action) != "d" ==> r == Err(InvalidOption)
    ensures r.Ok? ==> r == EncryptFile(files, path, password, sha256)
    ensures path in files && (Lower(action) == "e" || Lower(action) == "d") ==>
              r.Ok? && r == EncryptFile(files, path, password, sha256)
  {
    if path !in files then Err(FileNotFound)
    else if Lower(action) == "e" then EncryptFile(files, path, password, sha256)
    else if Lower(action) == "d" then DecryptFile(files, path, password, sha256)
    else Err(InvalidOption)
  }

  /** Encrypting through `main` and then decrypting through `main` with the
      same password gives back every file, whatever case the answers used. */
  lemma RunRoundTrip(files: Files, path: string, password: string, encrypt: string, decrypt: string,
                     sha256: PasswordHash)
    requires path in files && Lower(encrypt) == "e" && Lower(decrypt) == "d"
    ensures Run(files, path, password, encrypt, sha256).Ok?
    ensures Run(Run(files, path, password, encrypt, sha256).value, path, password, decrypt, sha256) == Ok(files)
  {
    DecryptUndoesEncrypt(files, path, password, sha256);
  }
}
