/** Subscriber keys "account:device" and the two ways the notification manager
    decides from such a key who receives an update. */
module SubscriberKeys {
  import opened Basics

  /** One device of one account. */
  datatype Dev = Dev(account: string, device: string)

  function Key(d: Dev): string {
    d.account + ":" + d.device
  }

  predicate ColonFree(s: string) {
    ':' !in s
  }

  predicate HashLike(d: Dev) {
    ColonFree(d.account) && ColonFree(d.device)
  }

  /** Position of the first separator, or the length when there is none. */
  function IndexOf(s: string, sep: char): (i: nat)
    ensures i <= |s|
    ensures sep !in s[..i]
    ensures i < |s| ==> s[i] == sep
  {
    if s == "" || s[0] == sep then 0 else 1 + IndexOf(s[1..], sep)
  }

  /** `str::split` on one character: always at least one part. */
  function Split(s: string, sep: char): (parts: seq<string>)
    ensures |parts| >= 1
    decreases |s|
  {
    var i := IndexOf(s, sep);
    if i == |s| then [s] else [s[..i]] + Split(s[i + 1..], sep)
  }

  /** The prefix/suffix test of the file broadcast. */
  predicate FileTest(key: string, account: string, source: string, excludeSource: bool) {
    && StartsWith(key, account + ":")
    && (excludeSource ==> !EndsWith(key, ":" + source))
  }

  /** The split-based test of the two watcher broadcasts. */
  predicate WatcherTest(key: string, account: string, exclude: Option<string>) {
    var parts := Split(key, ':');
    && |parts| == 2
    && parts[0] == account
    && (exclude.Some? ==> parts[1] != exclude.value)
  }

  /** Who ought to receive: the devices of the account, minus the source. */
  predicate Addressed(d: Dev, account: string, exclude: Option<string>) {
    d.account == account && (exclude.Some? ==> d.device != exclude.value)
  }

  lemma OnlyColon(d: Dev, i: nat)
    requires HashLike(d)
    requires i < |Key(d)|
    ensures Key(d)[i] == ':' <==> i == |d.account|
  {
  }

  lemma PrefixIsAccount(d: Dev, account: string)
    requires HashLike(d)
    ensures StartsWith(Key(d), account + ":") <==> d.account == account
  {
    var k := Key(d);
    if StartsWith(k, account + ":") {
      assert k[|account|] == (account + ":")[|account|];
      OnlyColon(d, |account|);
      assert d.account == k[..|d.account|] == account;
    }
    if d.account == account {
      assert k[..|account| + 1] == account + ":";
    }
  }

  lemma SuffixIsDevice(d: Dev, source: string)
    requires HashLike(d)
    ensures EndsWith(Key(d), ":" + source) <==> d.device == source
  {
    var k := Key(d);
    if EndsWith(k, ":" + source) {
      var at := |k| - |source| - 1;
      assert k[at..][0] == ':';
      OnlyColon(d, at);
      assert d.device == k[at + 1..];
      assert k[at..][1..] == source;
    }
    if d.device == source {
      assert k[|d.account|..] == ":" + source;
    }
  }

  lemma SplitKey(d: Dev)
    requires HashLike(d)
    ensures Split(Key(d), ':') == [d.account, d.device]
  {
    var k := Key(d);
    var i := IndexOf(k, ':');
    assert k[|d.account|] == ':';
    OnlyColon(d, i);
    assert k[..i] == d.account && k[i + 1..] == d.device;
    var j := IndexOf(d.device, ':');
    assert j == |d.device|;
  }

  /** A separator inside one of the hashes yields at least three parts. */
  lemma {:induction false} ExtraColonSplits(s: string, i: nat, j: nat)
    requires i < j < |s| && s[i] == ':' && s[j] == ':'
    ensures |Split(s, ':')| >= 3
  {
    var a := IndexOf(s, ':');
    var rest := s[a + 1..];
    var b := IndexOf(rest, ':');
    assert rest[j - a - 1] == ':';
    assert Split(s, ':') == [s[..a]] + Split(rest, ':');
    assert Split(rest, ':') == [rest[..b]] + Split(rest[b + 1..], ':');
  }

  lemma ColonInHash(d: Dev) returns (i: nat, j: nat)
    requires !HashLike(d)
    ensures i < j < |Key(d)| && Key(d)[i] == ':' && Key(d)[j] == ':'
  {
    if ':' in d.account {
      var p :| 0 <= p < |d.account| && d.account[p] == ':';
      i, j := p, |d.account|;
    } else {
      var p :| 0 <= p < |d.device| && d.device[p] == ':';
      i, j := |d.account|, |d.account| + 1 + p;
    }
  }

  /** The file broadcast addresses the right devices, whatever the update says
      about itself, exactly when the subscriber's hashes hold no colon. */
  lemma FileTestExact(d: Dev)
    ensures (forall account, source ::
               FileTest(Key(d), account, source, true) <==> Addressed(d, account, Some(source)))
       <==> HashLike(d)
  {
    if HashLike(d) {
      forall account, source
        ensures FileTest(Key(d), account, source, true) <==> Addressed(d, account, Some(source))
      {
        PrefixIsAccount(d, account);
        SuffixIsDevice(d, source);
      }
    } else if ':' in d.account {
      var p :| 0 <= p < |d.account| && d.account[p] == ':';
      var account, source := d.account[..p], Key(d);
      assert Key(d)[..p + 1] == account + ":";
      assert FileTest(Key(d), account, source, true);
      assert !Addressed(d, account, Some(source));
    } else {
      var p :| 0 <= p < |d.device| && d.device[p] == ':';
      var source := d.device[p + 1..];
      assert Key(d)[|Key(d)| - |source| - 1..] == ":" + source;
      assert !FileTest(Key(d), d.account, source, true);
      assert Addressed(d, d.account, Some(source));
    }
  }

  /** Same boundary for the split-based test, with or without an excluded device. */
  lemma WatcherTestExact(d: Dev)
    ensures (forall account, exclude ::
               WatcherTest(Key(d), account, exclude) <==> Addressed(d, account, exclude))
       <==> HashLike(d)
  {
    if HashLike(d) {
      SplitKey(d);
    } else {
      var i, j := ColonInHash(d);
      ExtraColonSplits(Key(d), i, j);
      assert !WatcherTest(Key(d), d.account, None);
      assert Addressed(d, d.account, None);
    }
  }

  /** On hash-like keys the two tests agree on every update. */
  lemma TestsAgree(d: Dev, account: string, source: string)
    requires HashLike(d)
    ensures FileTest(Key(d), account, source, true) <==> WatcherTest(Key(d), account, Some(source))
    ensures FileTest(Key(d), account, source, false) <==> WatcherTest(Key(d), account, None)
  {
    FileTestExact(d);
    WatcherTestExact(d);
    PrefixIsAccount(d, account);
  }

  /** Hash-like devices are told apart by their keys. */
  lemma KeyInjective(d: Dev, e: Dev)
    requires HashLike(d) && HashLike(e)
    ensures Key(d) == Key(e) <==> d == e
  {
    SplitKey(d);
    SplitKey(e);
  }
}
