/** pull_service_setup.go: session tokens in a map that is garbage-collected at every issue. */
module Tokens {
  import opened Common

  datatype PullToken = PullToken(fingerprint: Bytes, expiresAt: Time)

  function Collected(tokens: map<string, PullToken>, now: Time): map<string, PullToken> {
    map k | k in tokens && now <= tokens[k].expiresAt :: tokens[k]
  }

  function Lookup(tokens: map<string, PullToken>, token: string, now: Time): Option<Bytes> {
    if token in tokens && now <= tokens[token].expiresAt then Some(tokens[token].fingerprint) else None
  }

  class PullTokenStore {
    var tokens: map<string, PullToken>
    const ttl: Time

    constructor (ttl: Time)
      ensures tokens == map[] && this.ttl == ttl
    {
      this.tokens, this.ttl := map[], ttl;
    }

    /** `issuedAt` is read before the lock is taken, `gcAt` after; `random` is None when the generator fails. */
    method Issue(fingerprint: Option<Bytes>, random: Option<string>, issuedAt: Time, gcAt: Time)
      returns (issued: Option<(string, Time)>)
      modifies this
      ensures issued == if fingerprint.Some? && random.Some? then Some((random.value, issuedAt + ttl)) else None
      ensures tokens == if fingerprint.Some? && random.Some?
        then Collected(old(tokens), gcAt)[random.value := PullToken(fingerprint.value, issuedAt + ttl)]
        else old(tokens)
    {
      if fingerprint == None || random == None {
        return None;
      }
      var expiresAt := issuedAt + ttl;
      var todo := tokens.Keys;
      while todo != {}
        invariant todo <= old(tokens).Keys
        invariant tokens ==
          map k | k in old(tokens) && (k in todo || gcAt <= old(tokens)[k].expiresAt) :: old(tokens)[k]
        decreases |todo|
      {
        var k :| k in todo;
        if gcAt > tokens[k].expiresAt {
          tokens := tokens - {k};
        }
        todo := todo - {k};
      }
      tokens := tokens[random.value := PullToken(fingerprint.value, expiresAt)];
      return Some((random.value, expiresAt));
    }

    method Validate(token: string, now: Time) returns (fingerprint: Option<Bytes>)
      ensures fingerprint == Lookup(tokens, token, now)
    {
      if token !in tokens {
        return None;
      }
      if now > tokens[token].expiresAt {
        return None;
      }
      return Some(tokens[token].fingerprint);
    }
  }

  /** One entry of an append-only log of issued tokens. */
  datatype Issued = Issued(token: string, fingerprint: Bytes, issuedAt: Time, gcAt: Time)

  function Replay(log: seq<Issued>, ttl: Time): map<string, PullToken> {
    if log == [] then map[]
    else
      var last := log[|log| - 1];
      Collected(Replay(log[..|log| - 1], ttl), last.gcAt)[
        last.token := PullToken(last.fingerprint, last.issuedAt + ttl)]
  }

  ghost predicate FreshTokens(log: seq<Issued>) {
    forall i, j :: 0 <= i < j < |log| ==> log[i].token != log[j].token
  }

  /** No collection ran later than `now`. */
  ghost predicate ClockPast(log: seq<Issued>, now: Time) {
    forall i :: 0 <= i < |log| ==> log[i].gcAt <= now
  }

  ghost predicate LogAccepts(log: seq<Issued>, ttl: Time, token: string, now: Time, fp: Bytes) {
    exists i :: 0 <= i < |log| && log[i].token == token && log[i].fingerprint == fp && now <= log[i].issuedAt + ttl
  }

  /** The collected map accepts exactly the tokens, for exactly the owners, that the full log would. */
  lemma {:induction false} CollectionIsInvisible(log: seq<Issued>, ttl: Time, token: string, now: Time, fp: Bytes)
    requires FreshTokens(log) && ClockPast(log, now)
    ensures Lookup(Replay(log, ttl), token, now) == Some(fp) <==> LogAccepts(log, ttl, token, now, fp)
  {
    if log != [] {
      var n := |log| - 1;
      CollectionIsInvisible(log[..n], ttl, token, now, fp);
      assert FreshTokens(log[..n]);
      if token == log[n].token {
        assert forall i :: 0 <= i < n ==> log[i].token != token;
      } else {
        assert Lookup(Collected(Replay(log[..n], ttl), log[n].gcAt), token, now)
          == Lookup(Replay(log[..n], ttl), token, now);
        if LogAccepts(log[..n], ttl, token, now, fp) {
          var i :| 0 <= i < n && log[..n][i].token == token && log[..n][i].fingerprint == fp
            && now <= log[..n][i].issuedAt + ttl;
          assert log[i].token == token;
        }
      }
    }
  }

  /** Right after an issue no token expired at the collection instant remains, unless the new one itself is. */
  lemma NothingExpiredAfterIssueIff(log: seq<Issued>, ttl: Time)
    requires log != []
    ensures
      var last := log[|log| - 1];
      var tokens := Replay(log, ttl);
      && (forall k :: k in tokens && k != last.token ==> last.gcAt <= tokens[k].expiresAt)
      && ((forall k :: k in tokens ==> last.gcAt <= tokens[k].expiresAt) <==> last.gcAt <= last.issuedAt + ttl)
  {
    var last := log[|log| - 1];
    assert last.token in Replay(log, ttl);
  }

  /** One issue whose collection runs after the new token has expired: the expired token stays. */
  lemma ExpiredWhileWaiting(token: string, fp: Bytes, ttl: Time, gcAt: Time)
    requires gcAt > ttl
    ensures
      var tokens := Replay([Issued(token, fp, 0, gcAt)], ttl);
      token in tokens && tokens[token].expiresAt < gcAt && Lookup(tokens, token, gcAt) == None
  {
    assert [Issued(token, fp, 0, gcAt)][..0] == [];
    assert Replay([], ttl) == map[];
  }
}
