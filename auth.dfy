/**
 * src/contexts/AuthContext.jsx: the signed-in user, who is missing until the
 * mount effect installs a fixed record, and the balance debit.
 */
module Auth {
  import opened Wrappers

  datatype User = User(name: string, email: string, balance: int)

  /** The record the mount effect installs. */
  const INITIAL_USER := User("Julian Echeverria", "julianecheverria525@gmail.com", 550000)

  /** updateBalance's new record: the balance drops by the amount and the rest is kept. */
  function Debit(u: User, amount: int): (r: User)
    ensures r.balance == u.balance - amount
    ensures r.name == u.name && r.email == u.email
  {
    u.(balance := u.balance - amount)
  }

  /** Two debits in a row are one debit of the sum. */
  lemma DebitCompose(u: User, a: int, b: int)
    ensures Debit(Debit(u, a), b) == Debit(u, a + b)
  {
  }

  /** A debit and a credit of the same amount cancel. */
  lemma DebitCancel(u: User, a: int)
    ensures Debit(Debit(u, a), -a) == u
  {
  }

  /** The auth provider's state. */
  class AuthStore {
    var user: Option<User>

    /** useState(null): no user before the mount effect. */
    constructor ()
      ensures user == None
    {
      user := None;
    }

    /** The mount effect. */
    method Mount()
      modifies this
      ensures user == Some(INITIAL_USER)
    {
      user := Some(INITIAL_USER);
    }

    /**
     * updateBalance. With no user the updater reads a property of null and
     * throws; then ok is false and the state is untouched.
     */
    method UpdateBalance(amount: int) returns (ok: bool)
      modifies this
      ensures ok <==> old(user).Some?
      ensures ok ==> user == Some(Debit(old(user).value, amount))
      ensures !ok ==> user == old(user)
    {
      if user.None? {
        return false;
      }
      user := Some(Debit(user.value, amount));
      return true;
    }
  }
}
