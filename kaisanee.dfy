/** Who a kaisan command disconnects (src/model/kaisanee.rs). */
module Kaisanee {
  import opened Numeric
  import Say

  type UserId = nat

  datatype KaisaneeSpecifier = Me | All | Users(users: seq<UserId>)

  /** A command that names nobody disconnects everyone. */
  const DefaultKaisanee: KaisaneeSpecifier := All

  /** Whether the specifier could name someone other than `userId`. */
  function MayIncludeOthers(k: KaisaneeSpecifier, userId: UserId): (r: bool)
    ensures !r <==> k == Me || k == Users([userId])
  {
    match k
    case Me => false
    case All => true
    case Users(users) => users != [userId]
  }

  /** `Say for KaisaneeSpecifier`: "you", "everyone", or the users' mentions. */
  function SayKaisanee(k: KaisaneeSpecifier): string
  {
    match k
    case Me => "あなた"
    case All => "全員"
    case Users(ids) => Say.SayMentions(ids)
  }

  lemma {:induction false} MentionIsInjective(a: UserId, b: UserId)
    requires Say.Mention(a) == Say.Mention(b)
    ensures a == b
  {
    var sa, sb := NatToString(a), NatToString(b);
    assert Say.Mention(a)[2..|Say.Mention(a)| - 1] == sa;
    assert Say.Mention(b)[2..|Say.Mention(b)| - 1] == sb;
    assert DecimalValue(sa) == a && DecimalValue(sb) == b;
  }

  lemma {:induction false} MentionsAreInjective(xs: seq<UserId>, ys: seq<UserId>)
    requires Say.Mentions(xs) == Say.Mentions(ys)
    ensures xs == ys
  {
    forall i | 0 <= i < |xs| ensures xs[i] == ys[i] {
      assert Say.Mentions(xs)[i] == Say.Mentions(ys)[i];
      MentionIsInjective(xs[i], ys[i]);
    }
  }

  /** A non-empty list of users is named by text that neither "you" nor "everyone" is,
    * and different lists are named differently. */
  lemma SayKaisaneeIsInjective(k1: KaisaneeSpecifier, k2: KaisaneeSpecifier)
    requires k1.Users? ==> k1.users != []
    requires k2.Users? ==> k2.users != []
    requires SayKaisanee(k1) == SayKaisanee(k2)
    ensures k1 == k2
  {
    if k1.Users? {
      MentionsStartWithBracket(k1.users);
    }
    if k2.Users? {
      MentionsStartWithBracket(k2.users);
    }
    if k1.Users? && k2.Users? {
      Say.SayMentionsRecoversMentions(k1.users);
      Say.SayMentionsRecoversMentions(k2.users);
      MentionsAreInjective(k1.users, k2.users);
    }
  }

  lemma MentionsStartWithBracket(ids: seq<UserId>)
    requires ids != []
    ensures |Say.SayMentions(ids)| > 0 && Say.SayMentions(ids)[0] == '<'
  {
    var ms := Say.Mentions(ids);
    assert ms[0] == Say.Mention(ids[0]);
    assert Say.SayMentions(ids) == Say.Join(ms, " ");
    if |ms| > 1 {
      assert Say.Join(ms, " ") == ms[0] + " " + Say.Join(ms[1..], " ");
    }
  }
}
