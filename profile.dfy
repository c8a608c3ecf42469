/**
 * src/pages/ProfilePage.jsx: the profile record, its editing, the mock load,
 * the membership number drawn at start and the recharge of the page's own
 * balance.
 */
module Profile {
  import opened Wrappers
  import opened Strings
  import opened Js

  /** userData. `age` starts as text, the mock load makes it a number and the input makes it text again. */
  datatype UserData = UserData(
    name: string, city: string, country: string, age: Value,
    gender: string, profession: string, balance: int, membershipNumber: string)

  /** The editable inputs, by their `name` attribute. */
  datatype ProfileField = Name | City | Country | Age | Gender | Profession

  const MIN_RECHARGE := 50000
  const MAX_RECHARGE := 200000
  const INITIAL_RECHARGE := 50000

  /** The membership number for the draw `Math.floor(Math.random() * 900000)`. */
  function MembershipNumber(draw: nat): (r: string)
    requires draw < 900000
    ensures |r| == 10 && r[..4] == "LIB-"
    ensures exists n :: 100000 <= n <= 999999 && r == "LIB-" + NatToString(n)
  {
    var n := 100000 + draw;
    NatToStringLength(n, 5);
    "LIB-" + NatToString(n)
  }

  /** The part after "LIB-" reads back as a number from 100000 to 999999. */
  lemma MembershipNumberReadsBack(draw: nat)
    requires draw < 900000
    ensures var digits := MembershipNumber(draw)[4..];
            AllDigits(digits) && ParseNumber(digits) == Some(100000 + draw)
  {
    var n := 100000 + draw;
    assert MembershipNumber(draw)[4..] == NatToString(n);
    ParseNumberOfNat(n);
  }

  /** The initial record for a given draw. */
  function InitialUserData(draw: nat): (u: UserData)
    requires draw < 900000
    ensures u.balance == 0 && u.age == Str("") && u.membershipNumber == MembershipNumber(draw)
  {
    UserData("", "", "", Str(""), "", "", 0, MembershipNumber(draw))
  }

  /** The mock load: `{...prev, ...mockData}`; the membership number is not in the mock and is kept. */
  function Loaded(u: UserData): (r: UserData)
    ensures r.membershipNumber == u.membershipNumber
    ensures r == UserData("Julian Echeverria", "Bogotá", "Colombia", Num(32), "Masculino", "Ingeniero", 500000, u.membershipNumber)
  {
    u.(name := "Julian Echeverria", city := "Bogotá", country := "Colombia", age := Num(32),
       gender := "Masculino", profession := "Ingeniero", balance := 500000)
  }

  /** Loading discards everything but the membership number, so loading twice is loading once. */
  lemma LoadedIdempotent(u: UserData)
    ensures Loaded(Loaded(u)) == Loaded(u)
  {
  }

  /** handleInputChange's new record: `{...prev, [name]: value}`. */
  function WithField(u: UserData, field: ProfileField, value: string): (r: UserData)
    ensures r.balance == u.balance && r.membershipNumber == u.membershipNumber
  {
    match field
    case Name => u.(name := value)
    case City => u.(city := value)
    case Country => u.(country := value)
    case Age => u.(age := Str(value))
    case Gender => u.(gender := value)
    case Profession => u.(profession := value)
  }

  /** The value typed into a field, as the field reads it back. */
  function FieldValue(u: UserData, field: ProfileField): Value
  {
    match field
    case Name => Str(u.name)
    case City => Str(u.city)
    case Country => Str(u.country)
    case Age => u.age
    case Gender => Str(u.gender)
    case Profession => Str(u.profession)
  }

  /** An input change sets its own field to the typed text and leaves every other field as it was. */
  lemma WithFieldSetsOnlyThat(u: UserData, field: ProfileField, value: string)
    ensures FieldValue(WithField(u, field, value), field) == Str(value)
    ensures forall g: ProfileField :: g != field ==> FieldValue(WithField(u, field, value), g) == FieldValue(u, g)
    ensures WithField(u, field, value).balance == u.balance
    ensures WithField(u, field, value).membershipNumber == u.membershipNumber
  {
  }

  /** A later change of the same field overrides an earlier one. */
  lemma WithFieldOverrides(u: UserData, field: ProfileField, a: string, b: string)
    ensures WithField(WithField(u, field, a), field, b) == WithField(u, field, b)
  {
  }

  /** The guard of handleRecharge: the amount is neither below the minimum nor above the maximum. */
  predicate RechargeAccepted(amount: int)
  {
    !(amount < MIN_RECHARGE || amount > MAX_RECHARGE)
  }

  /** A recharge is accepted exactly for amounts from 50 000 to 200 000, both included. */
  lemma RechargeBounds(amount: int)
    ensures RechargeAccepted(amount) <==> 50000 <= amount <= 200000
  {
  }

  /** The amount the page starts with is accepted. */
  lemma InitialAmountAccepted()
    ensures RechargeAccepted(INITIAL_RECHARGE)
  {
  }

  /** An accepted recharge's new record: the balance grows by the amount and nothing else changes. */
  function Recharged(u: UserData, amount: int): (r: UserData)
    ensures r.balance == u.balance + amount
    ensures r.(balance := u.balance) == u
  {
    u.(balance := u.balance + amount)
  }

  /** Two recharges add up. */
  lemma RechargedCompose(u: UserData, a: int, b: int)
    ensures Recharged(Recharged(u, a), b) == Recharged(u, a + b)
  {
  }

  /** An accepted recharge always raises the balance, by at least the minimum and at most the maximum. */
  lemma AcceptedRechargeRaises(u: UserData, amount: int)
    requires RechargeAccepted(amount)
    ensures u.balance + MIN_RECHARGE <= Recharged(u, amount).balance <= u.balance + MAX_RECHARGE
  {
  }

  /** The page's state. */
  class ProfilePage {
    var userData: UserData
    var rechargeAmount: int
    var isEditing: bool

    /** The initial state; the random draw is any value in range. */
    constructor ()
      ensures exists draw :: 0 <= draw < 900000 && userData == InitialUserData(draw)
      ensures rechargeAmount == INITIAL_RECHARGE && RechargeAccepted(rechargeAmount)
      ensures !isEditing
    {
      var draw: nat :| draw < 900000;
      userData := InitialUserData(draw);
      rechargeAmount := INITIAL_RECHARGE;
      isEditing := false;
    }

    /** The mount effect's fetchUserData. */
    method Load()
      modifies this
      ensures userData == Loaded(old(userData))
      ensures rechargeAmount == old(rechargeAmount) && isEditing == old(isEditing)
    {
      userData := Loaded(userData);
    }

    method HandleInputChange(field: ProfileField, value: string)
      modifies this
      ensures userData == WithField(old(userData), field, value)
      ensures rechargeAmount == old(rechargeAmount) && isEditing == old(isEditing)
    {
      userData := WithField(userData, field, value);
    }

    /** handleSave: the record is only logged; editing ends. */
    method HandleSave()
      modifies this
      ensures !isEditing
      ensures userData == old(userData) && rechargeAmount == old(rechargeAmount)
    {
      isEditing := false;
    }

    /** The Edit button. */
    method Edit()
      modifies this
      ensures isEditing
      ensures userData == old(userData) && rechargeAmount == old(rechargeAmount)
    {
      isEditing := true;
    }

    /** The Cancel button: editing ends and the edits already made stay. */
    method Cancel()
      modifies this
      ensures !isEditing
      ensures userData == old(userData) && rechargeAmount == old(rechargeAmount)
    {
      isEditing := false;
    }

    /** The amount input's onChange, with Number() already applied. */
    method SetRechargeAmount(amount: int)
      modifies this
      ensures rechargeAmount == amount
      ensures userData == old(userData) && isEditing == old(isEditing)
    {
      rechargeAmount := amount;
    }

    /** handleRecharge: a rejected amount changes nothing; an accepted one is added to the balance. */
    method HandleRecharge() returns (accepted: bool)
      modifies this
      ensures accepted <==> 50000 <= old(rechargeAmount) <= 200000
      ensures accepted ==> userData == Recharged(old(userData), old(rechargeAmount))
      ensures !accepted ==> userData == old(userData)
      ensures rechargeAmount == old(rechargeAmount) && isEditing == old(isEditing)
    {
      if rechargeAmount < MIN_RECHARGE || rechargeAmount > MAX_RECHARGE {
        return false;
      }
      userData := Recharged(userData, rechargeAmount);
      return true;
    }
  }
}
