/** The errors `Load` can return. */
module Errors {

  /** The type named in a conversion error's message ("to bool", "to float", "to int", "to unsigned int"). */
  datatype Target = ToBool | ToFloat | ToInt | ToUnsignedInt

  datatype LoadError =
    | ErrValueNotStructPointer
    | ErrValueNotStruct
      /** a resolved text that the field's kind could not parse, with the field's name and the text */
    | ConversionError(target: Target, field: string, value: string)
}
