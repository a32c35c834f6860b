/** Token kinds of the c4 scanner. The operators come last, in precedence order, so that the parser
    can compare a token with a level. */
module Tok {
  const NUM := 128
  const FUN := 129
  const SYS := 130
  const GLO := 131
  const LOC := 132
  const ID := 133
  const CHAR := 134
  const ELSE := 135
  const ENUM := 136
  const IF := 137
  const INT := 138
  const RETURN := 139
  const SIZEOF := 140
  const WHILE := 141
  const FOR := 142
  const ASSIGN := 143
  const COND := 144
  const LOR := 145
  const LAN := 146
  const OR := 147
  const XOR := 148
  const AND := 149
  const EQ := 150
  const NE := 151
  const LT := 152
  const GT := 153
  const LE := 154
  const GE := 155
  const SHL := 156
  const SHR := 157
  const ADD := 158
  const SUB := 159
  const MUL := 160
  const DIV := 161
  const MOD := 162
  const INC := 163
  const DEC := 164
  const BRAK := 165

  // single-character tokens stand for themselves
  const BANG := 33
  const QUOTE := 34
  const LPAREN := 40
  const RPAREN := 41
  const COMMA := 44
  const COLON := 58
  const SEMI := 59
  const RBRACKET := 93
  const LBRACE := 123
  const RBRACE := 125
  const TILDE := 126

  /** One scanned token: its kind, the value of a number or string, and the identifier it names. */
  datatype Token = Token(kind: int, ival: int, id: nat)

  function Plain(kind: int): Token {
    Token(kind, 0, 0)
  }
}

/** Opcodes of the c4 virtual machine. */
module Opc {
  const LEA := 0
  const IMM := 1
  const JMP := 2
  const JSR := 3
  const BZ := 4
  const BNZ := 5
  const ENT := 6
  const ADJ := 7
  const LEV := 8
  const LI := 9
  const LC := 10
  const SI := 11
  const SC := 12
  const PSH := 13
  const OR := 14
  const XOR := 15
  const AND := 16
  const EQ := 17
  const NE := 18
  const LT := 19
  const GT := 20
  const LE := 21
  const GE := 22
  const SHL := 23
  const SHR := 24
  const ADD := 25
  const SUB := 26
  const MUL := 27
  const DIV := 28
  const MOD := 29
}

/** Types of c4 expressions: CHAR, INT, and PTR added once per level of indirection. */
module Ty {
  const CHAR := 0
  const INT := 1
  const PTR := 2
}
