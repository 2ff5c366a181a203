/**
 The Pact code of a template: who pays whom how much and, across chains, where, written out for each type of
 transfer. It is what the template's pieces print.
 */
module Pact {
  import opened Base
  import opened TransferSpec
  import opened Template

  // ---- The code --------------------------------------------------------------------------------

  /** A Pact string as it stands inside a JSON string, then `rest`. */
  function PactString(s: Bytes, rest: Bytes): Bytes { Cat("\\\"", Cat(s, Cat("\\\"", rest))) }

  /** What a call says: the module it is of, the two accounts, the target chain and the amount. */
  datatype Call = Call(name: Bytes, sender: Bytes, recipient: Bytes, chain: Bytes, amount: Bytes)

  /** The two accounts of a call, then `rest`. */
  function Accounts(c: Call, rest: Bytes): Bytes {
    PactString(c.sender, Cat(" ", PactString(c.recipient, Cat(" ", rest))))
  }

  /** The keyset of a recipient whose account may have to be created, then `rest`. */
  function Keyset(rest: Bytes): Bytes { Cat("(read-keyset ", PactString("ks", Cat(") ", rest))) }

  /**
   `(name.transfer "sender" "recipient" amount)`, `(name.transfer-create "sender" "recipient" keyset amount)` and
   `(name.transfer-crosschain "sender" "recipient" keyset "chain" amount)`.
   */
  function Code(txType: nat, c: Call): Bytes
    requires txType <= 2
  {
    if txType == 0 then
      Cat("(", Cat(c.name, Cat(".transfer ", Accounts(c, Cat(c.amount, ")")))))
    else if txType == 1 then
      Cat("(", Cat(c.name, Cat(".transfer-create ", Accounts(c, Keyset(Cat(c.amount, ")"))))))
    else
      Cat("(", Cat(c.name, Cat(".transfer-crosschain ",
        Accounts(c, Keyset(PactString(c.chain, Cat(" ", Cat(c.amount, ")"))))))))
  }

  /** The call that a request asks for, with the device's key as sender. */
  function CallOf(f: Fields, addr: Bytes): Call {
    Call(if f[NAMESPACE] != [] && f[MODULE] != [] then f[NAMESPACE] + ("." + f[MODULE]) else "coin",
         "k:" + addr, "k:" + f[RECIPIENT], f[RECIPIENT_CHAIN], f[AMOUNT])
  }

  // ---- The pieces print it ---------------------------------------------------------------------

  lemma {:induction false} ModuleText(f: Fields, addr: Bytes, x: Bytes)
    ensures Join(NsMod(f), x) == Cat(CallOf(f, addr).name, x)
  {
    if UsesNamespace(f) {
      Join3(f[NAMESPACE], ".", f[MODULE], x);
      CatCat(f[NAMESPACE], "." + f[MODULE], x);
      CatCat(".", f[MODULE], x);
    } else {
      Join1("coin", x);
    }
  }

  lemma {:induction false} AccountOpens(key: Bytes, x: Bytes)
    ensures Cat(" \\\"k:", Cat(key, x)) == Cat(" ", Cat("\\\"", Cat("k:" + key, x)))
  {
    hide Cat;
    Cut(" ", "\\\"k:", " \\\"k:", Cat(key, x));
    Cut("\\\"", "k:", "\\\"k:", Cat(key, x));
    Cut("k:", key, "k:" + key, x);
  }

  /** The sender and the recipient, behind a blank. */
  lemma {:induction false} AccountsText(f: Fields, addr: Bytes, x: Bytes)
    ensures Join([" \\\"k:", addr, "\\\" \\\"k:", f[RECIPIENT], "\\\""], Cat(" ", x)) ==
            Cat(" ", Accounts(CallOf(f, addr), x))
  {
    hide Cat;
    Join5(" \\\"k:", addr, "\\\" \\\"k:", f[RECIPIENT], "\\\"", Cat(" ", x));
    Cut("\\\"", " \\\"k:", "\\\" \\\"k:", Cat(f[RECIPIENT], Cat("\\\"", Cat(" ", x))));
    AccountOpens(f[RECIPIENT], Cat("\\\"", Cat(" ", x)));
    AccountOpens(addr, Cat("\\\"", Cat(" \\\"k:", Cat(f[RECIPIENT], Cat("\\\"", Cat(" ", x))))));
  }

  lemma {:induction false} KeysetText(x: Bytes)
    ensures Cat(" (read-keyset \\\"ks\\\")", Cat(" ", x)) == Cat(" ", Keyset(x))
  {
    hide Cat;
    Cut(" ", "(read-keyset \\\"ks\\\")", " (read-keyset \\\"ks\\\")", Cat(" ", x));
    Cut("(read-keyset ", "\\\"ks\\\")", "(read-keyset \\\"ks\\\")", Cat(" ", x));
    Cut("\\\"", "ks\\\")", "\\\"ks\\\")", Cat(" ", x));
    Cut("ks", "\\\")", "ks\\\")", Cat(" ", x));
    Cut("\\\"", ")", "\\\")", Cat(" ", x));
    Cut(")", " ", ") ", x);
  }

  /** What follows the accounts of the call, up to `rest`. */
  function Behind(f: Fields, txType: nat, rest: Bytes): Bytes {
    var end := Cat(f[AMOUNT], rest);
    if txType == 0 then end else if txType == 1 then Keyset(end)
    else Keyset(PactString(f[RECIPIENT_CHAIN], Cat(" ", end)))
  }

  /** The arguments of the call, behind a blank. */
  lemma {:induction false} ArgumentsText(f: Fields, txType: nat, addr: Bytes, x: Bytes)
    requires txType <= 2
    ensures Join(ArgumentPieces(f, txType, addr), x) == Cat(" ", Accounts(CallOf(f, addr), Behind(f, txType, x)))
  {
    hide Cat, Keyset;
    var who := [" \\\"k:", addr, "\\\" \\\"k:", f[RECIPIENT], "\\\""];
    var keyset := if txType != TRANSFER then [" (read-keyset \\\"ks\\\")"] else [];
    var chain := if txType == TRANSFER_CROSSCHAIN then [" \\\"", f[RECIPIENT_CHAIN], "\\\""] else [];
    var amount, end := [" ", f[AMOUNT]], Cat(f[AMOUNT], x);
    JoinAppend(who + keyset + chain, amount, x);
    JoinAppend(who + keyset, chain, Join(amount, x));
    JoinAppend(who, keyset, Join(chain, Join(amount, x)));
    Join2(" ", f[AMOUNT], x);
    if txType == 0 {
      AccountsText(f, addr, end);
    } else if txType == 1 {
      Join1(" (read-keyset \\\"ks\\\")", Cat(" ", end));
      KeysetText(end);
      AccountsText(f, addr, Keyset(end));
    } else {
      var target := PactString(f[RECIPIENT_CHAIN], Cat(" ", end));
      Join3(" \\\"", f[RECIPIENT_CHAIN], "\\\"", Cat(" ", end));
      Cut(" ", "\\\"", " \\\"", Cat(f[RECIPIENT_CHAIN], Cat("\\\"", Cat(" ", end))));
      Join1(" (read-keyset \\\"ks\\\")", Cat(" ", target));
      KeysetText(target);
      AccountsText(f, addr, Keyset(target));
    }
  }

  /** The code in the template is the call that the request asks for. */
  lemma {:induction false} PrintsCode(f: Fields, txType: nat, addr: Bytes)
    requires txType <= 2
    ensures Template.Code(f, txType, addr) == Code(txType, CallOf(f, addr))
  {
    hide Cat, Accounts, Keyset, PactString, NsMod, ArgumentPieces;
    var args, name, open := ArgumentPieces(f, txType, addr), NsMod(f), Cons("(", NsMod(f));
    JoinAppend(open + Cons(CallName(txType), args), [")"], []);
    JoinAppend(open, Cons(CallName(txType), args), Join([")"], []));
    Join1(")", []);
    CatNil(")");
    assert Cons(CallName(txType), args)[1..] == args && open[1..] == name;
    ModuleText(f, addr, Cat(CallName(txType), Join(args, ")")));
    ArgumentsText(f, txType, addr, ")");
    CallNames(txType, Accounts(CallOf(f, addr), Behind(f, txType, ")")));
  }

  lemma {:induction false} CallNames(txType: nat, x: Bytes)
    requires txType <= 2
    ensures Cat(CallName(txType), Cat(" ", x)) ==
            Cat(if txType == 0 then ".transfer " else if txType == 1 then ".transfer-create "
                else ".transfer-crosschain ", x)
  {
    hide Cat;
    Cut(".transfer", " ", ".transfer ", x);
    Cut(".transfer-create", " ", ".transfer-create ", x);
    Cut(".transfer-crosschain", " ", ".transfer-crosschain ", x);
  }
}
