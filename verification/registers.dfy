/** The register names `ParseRegister` in `src/MCPx64dbg.cpp` accepts in the 32-bit build. */
module Registers {
  import opened Wrappers
  import opened Codec
  import opened Text
  import opened Engine

  /** The lower-case spelling of each register. */
  function RegisterName(r: Register): string
  {
    match r
    case EAX => "eax"
    case EBX => "ebx"
    case ECX => "ecx"
    case EDX => "edx"
    case ESI => "esi"
    case EDI => "edi"
    case EBP => "ebp"
    case ESP => "esp"
    case EIP => "eip"
  }

  /**
   * `ParseRegister`: the name, lower-cased, must spell one of the nine
   * registers; otherwise the error text quotes the name as supplied.
   */
  function ParseRegister(name: string): (r: Result<Register, string>)
    ensures r.Success? ==> RegisterName(r.value) == ToLower(name)
    ensures r.Failure? ==> r.error == "Unknown register: " + name
    ensures r.Failure? ==> forall g: Register :: RegisterName(g) != ToLower(name)
  {
    var lower := ToLower(name);
    if lower == "eax" then Success(EAX)
    else if lower == "ebx" then Success(EBX)
    else if lower == "ecx" then Success(ECX)
    else if lower == "edx" then Success(EDX)
    else if lower == "esi" then Success(ESI)
    else if lower == "edi" then Success(EDI)
    else if lower == "ebp" then Success(EBP)
    else if lower == "esp" then Success(ESP)
    else if lower == "eip" then Success(EIP)
    else Failure("Unknown register: " + name)
  }

  /** Each register's spelling, and its upper-case form, parse to that register. */
  lemma ParseRegisterNames(g: Register)
    ensures ParseRegister(RegisterName(g)) == Success(g)
    ensures ParseRegister(ToUpper(RegisterName(g))) == Success(g)
  {
    LowerOfUpper(RegisterName(g));
    assert ToLower(RegisterName(g)) == RegisterName(g);
  }

  /** Case does not matter: upper-casing a name never changes which register it names. */
  lemma ParseRegisterIgnoresCase(name: string)
    ensures ParseRegister(ToUpper(name)).Success? <==> ParseRegister(name).Success?
    ensures ParseRegister(name).Success? ==> ParseRegister(ToUpper(name)) == ParseRegister(name)
  {
    LowerOfUpper(name);
  }

  /** An accepted register name is three letters, so echoing it unescaped is harmless. */
  lemma AcceptedRegisterNeedsNoEscape(name: string)
    requires ParseRegister(name).Success?
    ensures NoEscapes(name)
  {
    var spelled := RegisterName(ParseRegister(name).value);
    RegisterNameLetters(ParseRegister(name).value);
    forall i | 0 <= i < |name|
      ensures !NeedsEscape(name[i])
    {
      assert LowerChar(name[i]) == spelled[i];
    }
  }

  /** Every register is spelled with lowercase letters. */
  lemma RegisterNameLetters(r: Register)
    ensures forall i :: 0 <= i < |RegisterName(r)| ==> 'a' <= RegisterName(r)[i] <= 'z'
  {
  }
}
