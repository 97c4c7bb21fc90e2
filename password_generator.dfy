/** `password_generator.py`: a password of the requested length holding
    at least one upper-case letter, one digit and one punctuation mark,
    filled up from all four character pools and then shuffled. Each random
    choice is an arbitrary pick the proofs must hold for. */
module PasswordGenerator {
  import opened Wrappers

  const MinLength := 8
  const MaxLength := 128

  const Lowercase := "abcdefghijklmnopqrstuvwxyz"
  const Uppercase := "ABCDEFGHIJKLMNOPQRSTUVWXYZ"
  const Digits := "0123456789"
  /** `string.punctuation`: the 32 ASCII punctuation characters. */
  const Punctuation := "!\"#$%&'()*+,-./:;<=>?@[\\]^_`{|}~"
  const AllCharacters := Lowercase + Uppercase + Digits + Punctuation

  lemma PoolSizes()
    ensures |Lowercase| == 26 && |Uppercase| == 26 && |Digits| == 10 && |Punctuation| == 32
    ensures |AllCharacters| == 94
  {
  }

  /** Some character of `s` is drawn from `pool`. */
  predicate HasOneOf(s: string, pool: string) {
    exists i :: 0 <= i < |s| && s[i] in pool
  }

  /** What the generator promises of a password of length `length`. */
  predicate Acceptable(s: string, length: nat) {
    && |s| == length
    && HasOneOf(s, Uppercase) && HasOneOf(s, Digits) && HasOneOf(s, Punctuation)
    && forall i :: 0 <= i < |s| ==> s[i] in AllCharacters
  }

  /** Rearranging the characters keeps a password acceptable. */
  lemma PermutationKeepsAcceptable(s: string, t: string, length: nat)
    requires multiset(s) == multiset(t) && Acceptable(s, length)
    ensures Acceptable(t, length)
  {
    assert |t| == |multiset(t)| == |multiset(s)| == |s|;
    forall pool | pool in [Uppercase, Digits, Punctuation]
      ensures HasOneOf(t, pool)
    {
      var i :| 0 <= i < |s| && s[i] in pool;
      assert s[i] in multiset(t);
      var j :| 0 <= j < |t| && t[j] == s[i];
    }
    forall j | 0 <= j < |t| ensures t[j] in AllCharacters {
      assert t[j] in multiset(s);
      var i :| 0 <= i < |s| && s[i] == t[j];
    }
  }

  datatype LengthError = TooShort | TooLong

  /** `random.shuffle`: Fisher-Yates, swapping each position from the last
      down with an arbitrary position at or before it. */
  method Shuffle(a: array<char>)
    modifies a
    ensures multiset(a[..]) == multiset(old(a[..]))
  {
    var i := a.Length - 1;
    while i > 0
      invariant i < a.Length
      invariant multiset(a[..]) == multiset(old(a[..]))
    {
      var j :| 0 <= j <= i;
      a[i], a[j] := a[j], a[i];
      i := i - 1;
    }
  }

  /** A character of any pool is in the mixed pool built from them. */
  lemma InMixedPool<T>(x: T, a: seq<T>, b: seq<T>, c: seq<T>, d: seq<T>)
    requires x in b || x in c || x in d
    ensures x in a + b + c + d
  {
  }

  /** The unshuffled password: one upper-case letter, one digit and one
      punctuation mark, then characters from all pools until the length is
      reached. `random.choice` picks an arbitrary position of its pool. */
  method Seeded(length: nat) returns (password: string)
    requires length >= 3
    ensures Acceptable(password, length)
    ensures password[0] in Uppercase && password[1] in Digits && password[2] in Punctuation
  {
    var u :| 0 <= u < |Uppercase|;
    var d :| 0 <= d < |Digits|;
    var p :| 0 <= p < |Punctuation|;
    password := [Uppercase[u], Digits[d], Punctuation[p]];
    InMixedPool(password[0], Lowercase, Uppercase, Digits, Punctuation);
    InMixedPool(password[1], Lowercase, Uppercase, Digits, Punctuation);
    InMixedPool(password[2], Lowercase, Uppercase, Digits, Punctuation);
    while |password| < length
      invariant 3 <= |password| <= length
      invariant password[0] in Uppercase && password[1] in Digits && password[2] in Punctuation
      invariant forall i :: 0 <= i < |password| ==> password[i] in AllCharacters
    {
      var k :| 0 <= k < |AllCharacters|;
      password := password + [AllCharacters[k]];
    }
    assert HasOneOf(password, Uppercase) by {
      assert password[0] in Uppercase;
    }
    assert HasOneOf(password, Digits) by {
      assert password[1] in Digits;
    }
    assert HasOneOf(password, Punctuation) by {
      assert password[2] in Punctuation;
    }
  }

  /** `generate_password`: lengths outside 8..128 are refused; otherwise
      the password has exactly that many characters, all from the pools,
      with at least one upper-case letter, one digit and one punctuation
      mark. */
  method GeneratePassword(length: int) returns (r: Result<string, LengthError>)
    ensures length < MinLength <==> r == Err(TooShort)
    ensures length > MaxLength <==> r == Err(TooLong)
    ensures MinLength <= length <= MaxLength ==> r.Ok? && Acceptable(r.value, length)
  {
    if length < MinLength {
      return Err(TooShort);
    }
    if length > MaxLength {
      return Err(TooLong);
    }
    var password := Seeded(length);
    var a := new char[|password|](i requires 0 <= i < |password| => password[i]);
    assert a[..] == password;
    Shuffle(a);
    PermutationKeepsAcceptable(password, a[..], length);
    r := Ok(a[..]);
  }
}
