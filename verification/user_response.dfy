/** The public projection of a user returned after sign-up and sign-in: only the listed
    model fields that the user object actually has are copied, so the password hash and
    the status never leave the server. A user object is its own keys and values. */
module UserResponse {
  import opened JsValues

  /** `modelFields`, identical in both response classes. */
  const ModelFields: seq<string> := [
    "id", "email", "name", "lastName", "twoFactorEnabled", "phoneNumber",
    "profileImageUrl", "lastLoginAt", "onboardingCompleted", "createdAt", "updatedAt"
  ]

  /** The keys of `user` that are listed, each with the user's own value. */
  function Projection(user: map<string, JsValue>, fields: seq<string>): (r: map<string, JsValue>)
    ensures forall k :: k in r <==> k in fields && k in user
    ensures forall k :: k in r ==> r[k] == user[k]
  {
    map k | k in user && k in fields :: user[k]
  }

  /** Neither secret column is a listed field. */
  lemma SecretsNotListed()
    ensures "password" !in ModelFields && "status" !in ModelFields
  {
  }

  /** The loop shared by both response builders: walk the listed fields in order and copy
      each one the user has (`field in this.user`). */
  method FilterFields(user: map<string, JsValue>, fields: seq<string>) returns (r: map<string, JsValue>)
    ensures r == Projection(user, fields)
  {
    r := map[];
    var i := 0;
    while i < |fields|
      invariant 0 <= i <= |fields|
      invariant r == Projection(user, fields[..i])
    {
      var field := fields[i];
      assert fields[..i + 1] == fields[..i] + [field];
      if field in user {
        r := r[field := user[field]];
      }
      i := i + 1;
    }
    assert fields[..|fields|] == fields;
  }

  /** The response built after creating a user. */
  class CreateUserResponseDto {
    var user: map<string, JsValue>

    constructor (user: map<string, JsValue>)
      ensures this.user == user
    {
      this.user := user;
    }

    /** `returnCreateUserResponse`: only listed keys, each present one copied unchanged,
        absent ones left absent; password and status never appear. */
    method ReturnCreateUserResponse() returns (r: map<string, JsValue>)
      ensures r == Projection(user, ModelFields)
      ensures "password" !in r && "status" !in r
    {
      r := FilterFields(user, ModelFields);
      SecretsNotListed();
    }
  }

  /** The response built after a successful sign-in. */
  class SignInResponseDto {
    var user: map<string, JsValue>

    constructor (user: map<string, JsValue>)
      ensures this.user == user
    {
      this.user := user;
    }

    /** `returnSignInResponse`: the same projection as the sign-up response. */
    method ReturnSignInResponse() returns (r: map<string, JsValue>)
      ensures r == Projection(user, ModelFields)
      ensures "password" !in r && "status" !in r
    {
      r := FilterFields(user, ModelFields);
      SecretsNotListed();
    }
  }

  /** Projecting twice is projecting once. */
  lemma ProjectionIdempotent(user: map<string, JsValue>, fields: seq<string>)
    ensures Projection(Projection(user, fields), fields) == Projection(user, fields)
  {
  }
}
