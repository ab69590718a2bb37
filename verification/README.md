# esocial-data-exporter: a Dafny model of the export core

esocial-data-exporter reads eSocial XML events and stores them in SQLite. Brazil uses eSocial to report payroll and employment events. The tool then writes nine fixed-column CSV templates for a payroll system. This project models in Dafny the deterministic path from an event to a CSV row, and proves what each step promises. The pieces are:

- the XML-to-dictionary conversion, event identification and file dispatch of the XML processor;
- the field mapper: path walk, fallback chain, required fields, formatting, dependents and filters;
- the template exporter: cell resolution, collection rows, CSV shaping, the nine-template loop and the mapping completeness check;
- the validator: CPF, CNPJ and PIS check digits, dates, per-event error lists and the sanitiser;
- the storage decisions: the insert plan with batches and upsert, the read-only guard and row cap, parameter substitution, the table list and clearing;
- the date hint of the generic exporter.

The model is functional throughout:
- XML is `XmlTree.Elem(tag, attrs, text, children)`, where a tag may carry a `{uri}` prefix.
- Python values are `JsonValue.Json`; `None` is `JNull`.
- A database record is a `map<string, Json>`.
- The database is a sequence of named tables, each with a definition text, declared columns, a unique key and rows.
- Some behaviour is passed in as function parameters: JSON text decoding (`decode`), `json.dumps` (`dumps`), Python `repr` of containers (`reprOf`), float formatting, the clock year, per-layout handlers, the SQL engine (`execute`) and the engine's refusal of a row (`rejects`).

Modules:

| file | module | models |
|---|---|---|
| common.dfy | Common | `Option`, Python `str.strip`/`isspace`, `lower`/`upper`, `split`, `replace`, `int()`, `zfill`, `str < str` |
| calendar.dfy | Calendar | proleptic Gregorian dates, `strptime` field rules, `strftime` output, ordinal day numbers |
| json_value.dfy | JsonValue | Python values after `json.loads`, truthiness, `str()`, `dict.get` |
| xml_tree.dfy | XmlTree | `_elemento_para_dict`, local names, pre-order iteration |
| layout.dfy | Layout | `ESOCIAL_EVENT_PATTERNS`, `encontrar_primeiro_esocial`, `identificar_layout` |
| dispatch.dfy | Dispatch | the file-name pre-filter of `processar_diretorio`, `_processar_arquivo` |
| field_mapper.dfy | FieldMapper | `mapeador_campos_empresa.py` |
| template_export.dfy | TemplateExport | `exportador_templates_empresa.py` |
| validation.dfy | Validation | `validador_dados.py` |
| storage.dfy | Storage | `gerenciador_banco_dados.py` |
| generic_export.dfy | GenericExport | `aplicar_formatacao` of `exportador_generico.py` |

Where the source and its documentation disagree, the model follows the code:
- A failed insert batch is not skipped. The code keeps the failed rows pending, so they are sent again with the next rows (see Findings).
- A record whose collection items are all non-objects yields no rows in `_extrair_array_para_template`, not the single fallback row.
- `formatar_data_br` returns the text cut at `T`, not the original input, when the date does not parse.
- The filters of `validar_filtros_template` can raise `TypeError` on some inputs, and nothing catches it. The model reports this as a third verdict, `Raise`.
- `obter_tabelas` filters with `NOT LIKE 'sqlite_%'`. Here `_` is a wildcard and LIKE ignores ASCII case, so any name whose first six letters are `sqlite` in any case, followed by at least one more character, is dropped.

## Model

| member | source | states |
|---|---|---|
| XmlTree.LocalName | src/processadores/processador_xml.py:1840-1842 | a tag without `}` is its own local name, and a local name never contains `}` |
| XmlTree.LocalNameOfQualified | src/processadores/processador_xml.py:1840-1842 | stripping the `{uri}` prefix from a qualified tag gives back the local tag |
| XmlTree.DictKeys | src/processadores/processador_xml.py:1826-1853 | the dictionary's keys are exactly the attributes, `_text` when the stripped text is non-blank, and the local names of the children |
| XmlTree.Grouping | src/processadores/processador_xml.py:1836-1851 | the values under a name are the initial value (attribute or text) followed by the converted children of that name in document order; a list appears only with two or more of them |
| XmlTree.ChildEntry | src/processadores/processador_xml.py:1845-1851 | with no attribute of that name, zero children leave the key absent, one child maps to its object, and n >= 2 children map to the list of n objects in order |
| XmlTree.AttributeCollision | src/processadores/processador_xml.py:1829 | an attribute and one child with the same name merge into a two-element list, the attribute first |
| XmlTree.AttributeEntry | src/processadores/processador_xml.py:1829 | an attribute with no child of the same name is kept as its text |
| XmlTree.TextEntry | src/processadores/processador_xml.py:1832-1833 | non-blank text is stored stripped under `_text` |
| XmlTree.FoldView | src/processadores/processador_xml.py:1845-1851 | each merge step appends the new child to the values already held under its name |
| XmlTree.Preorder | src/processadores/processador_xml.py:238 | `iter()` starts at the element itself and visits every child |
| Layout.FirstESocialIn | src/processadores/processador_xml.py:234-241 | the first element, in document order, whose tag ends in `eSocial` or `eSocial>`, and None exactly when there is none |
| Layout.FirstCode | src/processadores/processador_xml.py:274-279 | the code of the first listed local name, and None exactly when no name is listed |
| Layout.FirstEvt | src/processadores/processador_xml.py:281-286 | the first local name that starts with `evt`, with no earlier name starting with it; None exactly when no name does |
| Layout.IdentifyLayout | src/processadores/processador_xml.py:243-287 | the result is one of the seven codes or a local name starting with `evt`, or None |
| Layout.IdentifyFallback | src/processadores/processador_xml.py:273-287 | when neither the direct children nor the start element give a code, the pre-order search for a listed name runs first, and only when it finds nothing does the first `evt` name decide |
| Layout.IdentifyNone | src/processadores/processador_xml.py:273-287 | identification gives None exactly when no element under the start element has a listed local name or one starting with `evt` |
| Layout.EnvelopeChildDecides | src/processadores/processador_xml.py:259-265 | under an `eSocial` start element, the first direct child with a listed local name decides the code |
| Layout.DirectCodeFound | src/processadores/processador_xml.py:259-272 | a code found among the direct children or on the start element is also found by the pre-order search |
| Layout.IdentifyIgnoresNamespace | src/processadores/processador_xml.py:262-279 | putting every tag of a document under one namespace URI does not change the identified code |
| Layout.SameLayoutAcrossVersions | src/processadores/processador_xml.py:262-279 | two copies of a document that differ only in namespace URI get the same code |
| Layout.InfoEmpregadorIdentified | tests/test_processador_xml_layouts.py:115-145 | an `evtInfoEmpregador` envelope under any namespace is identified by its own tag name |
| Layout.AdmissaoIdentified | src/processadores/processador_xml.py:20-28 | an `evtAdmissao` envelope under any namespace is S-2200 |
| Dispatch.Variations | src/processadores/processador_xml.py:371-375 | three spellings per layout: for `S-` followed by text without `S`, exactly `S` + text, `S-` + text and `S_` + text; a layout without `S-` is kept as the first spelling |
| Dispatch.VariationsOf | src/processadores/processador_xml.py:371-375 | for `S-` and digits, the spellings are `S####`, `S-####` and `S_####` in that order |
| Dispatch.Patterns | src/processadores/processador_xml.py:369-376 | entry 3k + j is spelling j of layout k, so the list holds three spellings per layout in layout order |
| Dispatch.AcceptedIff | src/processadores/processador_xml.py:369-377 | a file name passes the pre-filter iff its lower-cased text contains `s`, an optional `-` or `_`, and the digits of one of the seven layouts |
| Dispatch.AcceptedByIff | src/processadores/processador_xml.py:370-377 | the same iff for any list of `S-####` layouts |
| Dispatch.AcceptedExample | src/processadores/processador_xml.py:377 | `S-2200.xml` passes the pre-filter |
| Dispatch.Route | src/processadores/processador_xml.py:453-460 | an event is routed only to a code that has a registered handler |
| Dispatch.DispatchVerdicts | src/processadores/processador_xml.py:450-467 | skipped events touch no counter; without a raise, processed counts the successes, errors counts the failures, and the file is ok iff there were none; when the first raise is at position r, the file fails with the successes and failures before r, plus one error |
| Dispatch.DispatchEnvelope | src/processadores/processador_xml.py:449-467 | the same counts, exact in both cases, over the verdicts of the envelope's children, each routed by its identified code |
| Dispatch.ProcessFile | src/processadores/processador_xml.py:404-489 | a missing, short (< 50 bytes) or unparsable file is one error; a single event is routed once; an envelope gives exactly the envelope counts of its children, including the cut at the first raise |
| FieldMapper.LookupUnique | src/utils/mapeador_campos_empresa.py:1319-1321 | with distinct field names, looking a field up by its name finds its own definition |
| FieldMapper.Unwrap | src/utils/mapeador_campos_empresa.py:1347-1356 | an object with `_text` gives that value; an object with exactly one entry gives that entry; any other object gives None; a non-object is returned as is |
| FieldMapper.ExtractValue | src/utils/mapeador_campos_empresa.py:1329-1358 | falsy data, an empty path or undecodable text give None; a walk that finds every key ends in the unwrapped value; a walk that misses a key or meets a non-object gives None |
| FieldMapper.Walk | src/utils/mapeador_campos_empresa.py:1342-1346 | the empty path finds the document itself, a non-object stops any non-empty path, and a successful walk used only names |
| FieldMapper.WalkAppend | src/utils/mapeador_campos_empresa.py:1342-1346 | walking `p + q` is walking `p`, then `q` from where `p` ended |
| FieldMapper.WalkStops | src/utils/mapeador_campos_empresa.py:1342-1346 | if step i meets a value that is not an object holding key i, the whole walk fails, whatever the later keys |
| FieldMapper.ExtractValueStops | src/utils/mapeador_campos_empresa.py:1338-1346 | a key missing at any depth gives None |
| FieldMapper.IntegerIndexNeverResolves | src/utils/mapeador_campos_empresa.py:1342-1346 | a path with an integer element anywhere gives None |
| FieldMapper.ExtractNestedText | src/utils/mapeador_campos_empresa.py:1342-1351 | walking nested objects along their own keys finds the `_text` at the bottom |
| FieldMapper.Candidates | src/utils/mapeador_campos_empresa.py:1301-1304 | the primary path when present, followed by the alternatives in order |
| FieldMapper.FirstUsable | src/utils/mapeador_campos_empresa.py:1305-1310 | the first path whose value is neither None nor blank text wins; when none does, the default |
| FieldMapper.ExtractWithAlternatives | src/utils/mapeador_campos_empresa.py:1297-1310 | a usable primary value wins; when no candidate is usable, `valor_padrao` or None |
| FieldMapper.ObtainValue | src/utils/mapeador_campos_empresa.py:1312-1321 | an unknown template or field gives None |
| FieldMapper.FieldValue | src/utils/mapeador_campos_empresa.py:1322-1327 | a field of any origin other than `json_data` is exactly the record's value under that origin |
| FieldMapper.ColumnOriginIgnoresPaths | src/utils/mapeador_campos_empresa.py:1326-1327 | for such a field, changing its paths, alternatives or default changes nothing |
| FieldMapper.MissingJsonGivesDefault | src/utils/mapeador_campos_empresa.py:1324-1325 | a `json_data` field of a record with no truthy `json_data` gets its default |
| FieldMapper.MissingRequiredIff | src/utils/mapeador_campos_empresa.py:1795-1819 | a name is reported missing iff it is a required field of the template whose value is None or blank |
| FieldMapper.MissingRequired | src/utils/mapeador_campos_empresa.py:1808-1809 | an unknown template reports nothing |
| FieldMapper.MissingRequiredOrder | src/utils/mapeador_campos_empresa.py:1811-1819 | two missing required fields are reported in the order the mapping lists them |
| FieldMapper.ValidValueIff | src/utils/mapeador_campos_empresa.py:1984-1990 | a non-None value of a known field is valid iff the field lists no values or lists `str(value)` |
| FieldMapper.ValidValue | src/utils/mapeador_campos_empresa.py:1977-1990 | None is always valid, and only a known field can reject |
| FieldMapper.ParseDataInput | src/utils/mapeador_campos_empresa.py:1842-1848 | `%Y-%m-%d` decides when it parses; otherwise `%d/%m/%Y` when it parses; otherwise the result is the third format's; a parsed date is a real calendar date |
| FieldMapper.FormatData | src/utils/mapeador_campos_empresa.py:1840-1849 | a non-string or empty string is returned as it is; text whose part before `T` parses in none of the three formats is returned as it is; otherwise the result is the parsed date written `DD/MM/YYYY` |
| FieldMapper.FormatDataKeepsMonth13 | src/utils/mapeador_campos_empresa.py:1840-1849 | `2024-13-01` is no date in any format and is returned unchanged |
| FieldMapper.FormatDatetime | src/utils/mapeador_campos_empresa.py:1850-1860 | a non-string or empty string is returned as it is; text without `T` is read as `%Y-%m-%d %H:%M:%S` and written `DD/MM/YYYY`, or returned when it does not parse; text with `T` goes through `fromisoformat` after `Z` becomes `+00:00` |
| FieldMapper.ThirdFormatNeedsLowerT | src/utils/mapeador_campos_empresa.py:1842-1845 | text already cut at `T` can match the third input format only when it holds a lower-case `t`, which `strptime` matches case-insensitively |
| FieldMapper.FormatDataLowerT | src/utils/mapeador_campos_empresa.py:1840-1849 | an ISO date followed by a lower-case `t` and a clock is read by the third format and re-emitted as `DD/MM/YYYY` |
| FieldMapper.FormatDataIso | src/utils/mapeador_campos_empresa.py:1840-1849 | an ISO date, alone or followed by `T` and anything, is re-emitted as `DD/MM/YYYY` |
| FieldMapper.FormatDataIdempotent | src/utils/mapeador_campos_empresa.py:1840-1849 | formatting a `data` value twice gives the same as once |
| FieldMapper.FormatDmyStable | src/utils/mapeador_campos_empresa.py:1840-1849 | a date already written `DD/MM/YYYY` is unchanged |
| FieldMapper.DatetimeDropsTime | src/utils/mapeador_campos_empresa.py:1850-1857 | an ISO date, any non-empty run of whitespace and an `HH:MM:SS` clock become `DD/MM/YYYY`, dropping the time |
| FieldMapper.FormatValue | src/utils/mapeador_campos_empresa.py:1825-1864 | None stays None; `string` gives `str(value)`; `decimal` goes through the decimal rendering; `data` and `datetime` are the date reformatting of their branch; unknown types are returned unchanged |
| FieldMapper.ExtractText | src/utils/mapeador_campos_empresa.py:1588-1610 | a string value is itself; an object's `_text` is taken; a missing key, a non-object, and a value that is neither a string nor an object with `_text` give `""` |
| FieldMapper.ExtractTextAgrees | src/utils/mapeador_campos_empresa.py:1329-1358 | for a string or an object with `_text`, the text reader gives the same as the one-key path walk |
| FieldMapper.ExtractTextLeaf | src/utils/mapeador_campos_empresa.py:1603-1604 | writing `{"_text": s}` under a key and reading that key gives back `s` |
| FieldMapper.DependentRow | src/utils/mapeador_campos_empresa.py:1567-1578 | a dependent row has exactly the ten template columns, with the name taken from `nmDep` |
| FieldMapper.DependentRowCells | src/utils/mapeador_campos_empresa.py:1567-1578 | the first two cells are the employer and the worker given; each other cell is the text of its own dependent key |
| FieldMapper.DependentRowLeaves | src/utils/mapeador_campos_empresa.py:1567-1578 | a dependent whose `nmDep`, `dtNascto` and `cpfDep` are `{"_text": ...}` leaves gives those texts in its columns, and a missing `tpDep` gives `""` |
| FieldMapper.NamedRows | src/utils/mapeador_campos_empresa.py:1566-1581 | every emitted row has a non-empty name, and every item with a non-empty `nmDep` is emitted |
| FieldMapper.NamedRowsSingle | src/utils/mapeador_campos_empresa.py:1566-1581 | one item gives its row if its name is non-empty, else nothing |
| FieldMapper.NamedRowsAppend | src/utils/mapeador_campos_empresa.py:1566-1581 | the rows of two item lists are the rows of the first, then those of the second, so rows follow item order |
| FieldMapper.SingleDependentIsList | src/utils/mapeador_campos_empresa.py:1562-1564 | one dependent object gives the same rows as a list holding just that object |
| FieldMapper.FirstRows | src/utils/mapeador_campos_empresa.py:1553-1583 | the result is empty iff no candidate path gives a named dependent |
| FieldMapper.FirstRowsDecides | src/utils/mapeador_campos_empresa.py:1582-1583 | the first path with a named dependent decides, and later paths are not read |
| FieldMapper.FirstText | src/utils/mapeador_campos_empresa.py:1512-1543 | the first path whose value is a truthy object with `_text`, or truthy text, gives that `_text` or that text; when no path does, the number is `""` |
| FieldMapper.ExtractDependents | src/utils/mapeador_campos_empresa.py:1502-1586 | undecodable data gives no dependents; otherwise the rows are those of the first dependent path that yields any, built with the employer and worker numbers looked up first; every dependent returned is named |
| FieldMapper.NamedRowsOwners | src/utils/mapeador_campos_empresa.py:1566-1570 | every row built from a list of items carries the employer and worker it was built with |
| FieldMapper.RowsAtOwners | src/utils/mapeador_campos_empresa.py:1555-1570 | the rows read at one dependent path carry the employer and worker they were built with |
| FieldMapper.FirstRowsOwners | src/utils/mapeador_campos_empresa.py:1545-1583 | the same holds for the rows chosen among the dependent paths |
| FieldMapper.ExtractDependentsOwners | src/utils/mapeador_campos_empresa.py:1512-1583 | every dependent row holds the looked-up employer number in column 1 and the looked-up worker number in column 2 |
| FieldMapper.HolidayFilterIff | src/utils/mapeador_campos_empresa.py:1428-1463 | when the decoded `json_data` has the dictionary shape the XML conversion produces, the `ferias` filter accepts iff `codigo_motivo` is `15` or the nested `iniAfastamento.codMotAfast._text` is `15` |
| FieldMapper.LeaveTypeFilter | src/utils/mapeador_campos_empresa.py:1440-1461 | a listed `codigo_motivo` accepts; type `""` or `todos` never rejects |
| FieldMapper.DaysFilter | src/utils/mapeador_campos_empresa.py:1481-1486 | a missing start or end date rejects |
| FieldMapper.DaysFilterCount | src/utils/mapeador_campos_empresa.py:1489-1496 | for two ISO dates, the filter accepts iff the inclusive day count (end - start) + 1 reaches the minimum |
| FieldMapper.EndBeforeStartRejected | src/utils/mapeador_campos_empresa.py:1493-1496 | an end before the start never meets a positive minimum |
| FieldMapper.TemplateFilter | src/utils/mapeador_campos_empresa.py:1398-1399 | an unknown template accepts |
| FieldMapper.NoFiltersAcceptAll | src/utils/mapeador_campos_empresa.py:1401-1405 | a template without filters accepts every record |
| TemplateExport.ReadColumns | src/exportadores/exportador_templates_empresa.py:134-171 | a non-empty header line gives its cleaned names, all stripped and non-blank; otherwise the configured columns for that template, or none when it has no configuration |
| TemplateExport.CleanHeaderKeepsClean | src/exportadores/exportador_templates_empresa.py:156 | cleaning a header whose names are already stripped and non-blank keeps it as it is |
| TemplateExport.HeaderRoundTrip | src/exportadores/exportador_templates_empresa.py:1168-1169 | reading back the header line written for clean columns gives the same columns |
| TemplateExport.PriorityValue | src/exportadores/exportador_templates_empresa.py:173-187 | the record's own value unless None or `""`, then the mapper's value unless None or `""`, then `valor_padrao`, else `""` |
| TemplateExport.BlankColumnKept | src/exportadores/exportador_templates_empresa.py:178 | a whitespace-only record value wins here, although the mapper counts it as missing |
| TemplateExport.PriorityRow | src/exportadores/exportador_templates_empresa.py:236-239 | the fallback row has exactly the template columns, each holding its priority value |
| TemplateExport.RecordRows | src/exportadores/exportador_templates_empresa.py:234-251 | no extracted items give exactly one row built from the record; otherwise row i is the priority row of the record merged with the i-th non-empty object item; every row has exactly the template columns |
| TemplateExport.ItemRows | src/exportadores/exportador_templates_empresa.py:243-251 | one row per non-empty object item, in order, each the priority row of the record merged with that item; other items are skipped |
| TemplateExport.ItemWins | src/exportadores/exportador_templates_empresa.py:246-250 | on a key collision, the item's value wins over the record's |
| TemplateExport.ExpandAppend | src/exportadores/exportador_templates_empresa.py:208-251 | records are expanded one after the other, so the rows keep record order |
| TemplateExport.ExpandRecords | src/exportadores/exportador_templates_empresa.py:236-251 | every row has exactly the template columns |
| TemplateExport.Cell | src/exportadores/exportador_templates_empresa.py:294-298 | a usable mapper value is kept; otherwise the value found through the JSON paths and alternatives, with None written as `""`; a cell is never None |
| TemplateExport.ColumnFieldFallsBackToPaths | src/exportadores/exportador_templates_empresa.py:295-298 | a column-origin field whose column is empty is then resolved through its JSON paths |
| TemplateExport.GenerateRows | src/exportadores/exportador_templates_empresa.py:267-299 | no source gives no rows; otherwise one row per fetched record, in order, each with exactly the template columns and no None cell |
| TemplateExport.FormatDateBr | src/exportadores/exportador_templates_empresa.py:2022-2035 | empty input is returned unchanged; when the text before `T` is a ten-character ISO date that parses, the result is that date as `DD/MM/YYYY`, and otherwise it is the text before `T` |
| TemplateExport.FormatDateBrIso | src/exportadores/exportador_templates_empresa.py:2027-2032 | an ISO date, alone or followed by `T` and anything, becomes `DD/MM/YYYY` |
| TemplateExport.FormatDateBrIdempotent | src/exportadores/exportador_templates_empresa.py:2022-2035 | applying the conversion twice gives the same as once |
| TemplateExport.CellOut | src/exportadores/exportador_templates_empresa.py:1176-1186 | None and `""` are written empty; text starting with an ISO date goes through the date conversion; integers, booleans and decimal text go through the number formatter; other text is written as it is |
| TemplateExport.EmptyFile | src/exportadores/exportador_templates_empresa.py:1211-1225 | the header line alone, or an empty file without columns |
| TemplateExport.WriteTemplate | src/exportadores/exportador_templates_empresa.py:1135-1190 | no rows give the header-only file; otherwise the header, then one line per row with cells in column order and missing keys written `''` |
| TemplateExport.TemplateOutcome | src/exportadores/exportador_templates_empresa.py:105-110 | a template without columns is not counted and gets an empty file |
| TemplateExport.ExportEach | src/exportadores/exportador_templates_empresa.py:100-126 | every template gets a file, in order, and the count is the number that completed |
| TemplateExport.ExportAll | src/exportadores/exportador_templates_empresa.py:62-132 | the nine mandatory templates are attempted in order; the count is at most 9 |
| TemplateExport.AllDeclared | src/exportadores/exportador_templates_empresa.py:1413-1416 | true iff every column has a field in the mapping |
| TemplateExport.MappingsComplete | src/exportadores/exportador_templates_empresa.py:1385-1431 | true iff every mandatory template has a mapping, non-empty columns, and a field for each column |
| Validation.OnlyDigits | src/utils/validador_dados.py:36 | removing non-digits leaves only digits, keeps an all-digit text and empties a text without digits |
| Validation.OnlyDigitsAppend | src/utils/validador_dados.py:36 | removing non-digits distributes over concatenation |
| Validation.WeightedSum | src/utils/validador_dados.py:48-50 | the loop computes the weighted digit sum |
| Validation.ValidateCpf | src/utils/validador_dados.py:22-67 | true iff the digits are 11, not all equal, and both check digits match |
| Validation.ValidateCnpj | src/utils/validador_dados.py:70-121 | true iff the digits are 14, not all equal, and both check digits match |
| Validation.ValidatePis | src/utils/validador_dados.py:153-188 | true iff the text is empty, or its digits are 11, not all equal, with a matching check digit |
| Validation.CpfCompleteValid | src/utils/validador_dados.py:48-65 | appending the two computed check digits to any nine digits that are not all equal gives a valid CPF |
| Validation.CpfDetermined | src/utils/validador_dados.py:48-65 | a valid CPF is its first nine digits followed by the computed check digits |
| Validation.CnpjCompleteValid | src/utils/validador_dados.py:96-119 | appending the computed check digits to any twelve digits that are not all equal gives a valid CNPJ |
| Validation.CnpjDetermined | src/utils/validador_dados.py:96-119 | a valid CNPJ is its first twelve digits followed by the computed check digits |
| Validation.PisCompleteValid | src/utils/validador_dados.py:178-188 | appending the computed check digit to any ten digits that are not all equal gives a valid PIS |
| Validation.PisDetermined | src/utils/validador_dados.py:178-188 | a valid non-empty PIS is its first ten digits followed by the computed check digit |
| Validation.CpfValidExample | tests/test_validador_dados.py:23 | `12345678909` is a valid CPF |
| Validation.CpfInvalidExample | tests/test_validador_dados.py:27 | `12345678910` is not |
| Validation.CnpjValidExample | tests/test_validador_dados.py:34 | `12345678000195` is a valid CNPJ |
| Validation.CnpjInvalidExample | tests/test_validador_dados.py:38 | `12345678000196` is not |
| Validation.PisValidExample | tests/test_validador_dados.py:64 | `12345678919` is a valid PIS |
| Validation.PisInvalidExample | tests/test_validador_dados.py:67 | `12345678910` is not |
| Validation.DegenerateExamples | tests/test_validador_dados.py:61-71 | repeated digits are rejected; empty text is accepted as a PIS but not as a CPF or CNPJ |
| Validation.FormatDocument | src/utils/validador_dados.py:191-218 | the result is the input's digits in order, the same text as the non-digit removal, and keeps an all-digit text |
| Validation.FormatDocumentIdempotent | src/utils/validador_dados.py:191-218 | formatting twice gives the same as once |
| Validation.FormatKeepsValidity | src/utils/validador_dados.py:191-218 | formatting a CPF or CNPJ does not change whether it is valid |
| Validation.ValidDateIff | src/utils/validador_dados.py:124-150 | a date text is valid iff it is empty, or it has the `dddd-dd-dd` shape, is a real date, and its year is in [1900, current year + 1] |
| Validation.ValidDateAccepts | src/utils/validador_dados.py:134-150 | every real date in the year range, written ISO, is valid |
| Validation.NewlineRejected | src/utils/validador_dados.py:138-143 | a trailing newline passes the shape check but fails the parse |
| Validation.DateExamples | tests/test_validador_dados.py:41-59 | the test's accepted and rejected dates, with 2025 as the current year |
| Validation.S2200Issues | src/utils/validador_dados.py:231-258 | each of the five fields adds its error iff it is non-empty and invalid, and no other error appears |
| Validation.WorkerIssues | src/utils/validador_dados.py:233-246 | the CPF, PIS and birth-date errors, each iff its field is non-empty and invalid, and no other error |
| Validation.TableIssues | src/utils/validador_dados.py:273-337 | the code, CBO, start, end, end-before-start and CNPJ errors, each iff its own condition holds, and no other error |
| Validation.S2299Issues | src/utils/validador_dados.py:352-376 | the dismissal-date, reason, date, CPF and CNPJ errors, each iff its own condition holds, and no other error |
| Validation.ValidateS2200 | src/utils/validador_dados.py:221-258 | the record is valid iff each of its five fields is empty or passes its own check; each error appears iff its field fails, and no other error appears |
| Validation.S2200FourIssues | tests/test_validador_dados.py:124-134 | the test's record with four bad fields gets exactly four errors |
| Validation.ValidateS1020 | src/utils/validador_dados.py:261-296 | valid iff the code is present and every other check passes; a missing code is always an error; end before start is reported only for a valid end date and a non-empty start, comparing the texts; no other error appears |
| Validation.ValidateS1030 | src/utils/validador_dados.py:299-339 | as S-1020, plus a non-empty CBO whose length is not 6 is an error |
| Validation.ValidateS2299 | src/utils/validador_dados.py:342-376 | valid iff every check passes; a missing dismissal date or reason is an error, as is an invalid date, CPF or CNPJ; no other error appears |
| Validation.KeepChars | src/utils/validador_dados.py:407-413 | only kept characters remain, and a text made only of kept characters is unchanged |
| Validation.NormalizeCbo | src/utils/validador_dados.py:417-421 | the result is always six digits; with at most six digits it is them, zero-filled on the left; with more it is the first six |
| Validation.NormalizeCboValue | src/utils/validador_dados.py:419-421 | zero-filling keeps the CBO's numeric value |
| Validation.Sanitize | src/utils/validador_dados.py:379-437 | a new map with the same keys; CPF and CNPJ are reduced to digits; unrelated fields are unchanged |
| Validation.SanitizeCleans | src/utils/validador_dados.py:404-435 | names are the input with exactly the non-word, non-space characters removed; codes with exactly the non-word characters removed; CBO becomes six digits; amounts go through the number conversion |
| Validation.SanitizeNameCleans | src/utils/validador_dados.py:404-407 | the S-2200 worker name keeps exactly its word and space characters, in order |
| Validation.SanitizeCodeCleans | src/utils/validador_dados.py:409-413 | the S-1020 code keeps exactly its word characters, in order |
| Validation.SanitizeDocumentsIdempotent | src/utils/validador_dados.py:397-398 | sanitising an already sanitised CPF leaves it unchanged |
| Validation.SanitizeNameExample | tests/test_validador_dados.py:73-85 | `João da Silva!@#` becomes `João da Silva` |
| Validation.SanitizeCboExample | tests/test_validador_dados.py:87-98 | CBO `123` becomes `000123` |
| Storage.Capped | src/banco_dados/gerenciador_banco_dados.py:325-338 | the first min(n, 1000) rows |
| Storage.FetchCapped | src/banco_dados/gerenciador_banco_dados.py:325-338 | the fetch loop in pages of 100 returns exactly the capped rows |
| Storage.Query | src/banco_dados/gerenciador_banco_dados.py:280-351 | a statement that is not a read is refused with no rows; an execution error gives no rows; a count without `group by` is not capped, everything else is |
| Storage.WritesRefused | tests/test_gerenciador_banco_dados_avancado.py:255-261 | statements starting with insert, update, delete, drop, create or alter return no rows |
| Storage.UserTables | src/banco_dados/gerenciador_banco_dados.py:396-398 | the listed names are exactly the non-internal table names |
| Storage.ListTables | src/banco_dados/gerenciador_banco_dados.py:389-398 | at most 1000 names, none internal, and all user tables when they fit |
| Storage.StoreOthers | src/banco_dados/gerenciador_banco_dados.py:256 | writing one table leaves every other table as it was |
| Storage.ClearForProcessing | src/banco_dados/gerenciador_banco_dados.py:97-150 | the seven event tables are emptied, and every other table and every definition is kept |
| Storage.ClearIdempotent | src/banco_dados/gerenciador_banco_dados.py:97-150 | clearing twice is the same as clearing once |
| Storage.SubstituteAbsent | src/banco_dados/gerenciador_banco_dados.py:379-382 | parameters that do not occur in the SQL change nothing and pass no values |
| Storage.SubstituteOrdered | src/banco_dados/gerenciador_banco_dados.py:378-385 | values are passed for a subsequence of the parameter names, in mapping order |
| Storage.StageShift | src/banco_dados/gerenciador_banco_dados.py:379-382 | handling the first parameter and then the rest is the same loop as handling them all |
| Storage.SubstituteText | src/banco_dados/gerenciador_banco_dados.py:379-382 | the text that runs is the text left after every parameter's turn |
| Storage.SubstituteNames | src/banco_dados/gerenciador_banco_dados.py:379-382 | a name is recorded iff its `:name` marker occurs in the text as the earlier turns left it |
| Storage.SubstituteKeepsAbsent | src/banco_dados/gerenciador_banco_dados.py:380-381 | a marker without `?` that the text does not hold is never created by the replacements |
| Storage.SubstituteClears | src/banco_dados/gerenciador_banco_dados.py:380-381 | no recorded marker (for names without `?`) remains in the text that runs |
| Storage.ParamValues | src/banco_dados/gerenciador_banco_dados.py:385 | one value per recorded name, in the same order, each the mapping's value for that name |
| Storage.ExportData | src/banco_dados/gerenciador_banco_dados.py:357-387 | an unknown export gives no rows; otherwise the query runs on the text left after every turn, with the values of exactly the names whose markers were found, in mapping order |
| Storage.Coerce | src/banco_dados/gerenciador_banco_dados.py:226-239 | outside an INTEGER column, dicts and lists become their JSON text and other values are kept; in an INTEGER column, non-empty text or a container's JSON text becomes its integer, or 0; None, integers and booleans are kept |
| Storage.CoerceContainerInteger | src/banco_dados/gerenciador_banco_dados.py:226-239 | a dict or list in an INTEGER column is written as 0, because its JSON text starts with a bracket |
| Storage.BuildRow | src/banco_dados/gerenciador_banco_dados.py:221-251 | each row has exactly the first record's columns: NULL for a key the record lacks, and otherwise the record's value coerced to the column's type |
| Storage.FindClash | src/banco_dados/gerenciador_banco_dados.py:204-209 | finds a stored row with the same unique key, or says none has it |
| Storage.ApplyRow | src/banco_dados/gerenciador_banco_dados.py:204-213 | a plain insert is refused iff a stored row has the same unique key, and otherwise appends the row; an upsert is never refused, keeps the count on a clash, and appends otherwise |
| Storage.ApplyRowKeepsKeysDistinct | src/banco_dados/gerenciador_banco_dados.py:204-213 | a row that is taken, by a plain insert or an upsert, keeps the table's unique keys distinct |
| Storage.ReinsertKeepsCount | tests/testes_layouts.py:127-137 | re-inserting a row whose key is present leaves the row count unchanged under an upsert, and is refused by a plain insert |
| Storage.ApplyBatch | src/banco_dados/gerenciador_banco_dados.py:255-256 | a batch that succeeds had no row refused by the engine; an upsert batch succeeds iff the engine refuses none of its rows |
| Storage.ApplyBatchPlain | src/banco_dados/gerenciador_banco_dados.py:204-213 | a plain batch succeeds iff each row passes the engine and repeats no key stored or earlier in the batch, and then appends the batch |
| Storage.PlainFitsRows | src/banco_dados/gerenciador_banco_dados.py:204-213 | a plain batch fits iff every row passes the engine and clashes with no stored row and no earlier row of the batch |
| Storage.Chunks | src/banco_dados/gerenciador_banco_dados.py:217 | every chunk holds between 1 and 1000 rows |
| Storage.ChunksFlatten | src/banco_dados/gerenciador_banco_dados.py:217-254 | the chunks, put back together, are the rows in order |
| Storage.BatchesAreChunks | src/banco_dados/gerenciador_banco_dados.py:253-261 | with failed batches dropped, the row-by-row loop sends exactly the consecutive 1000-row chunks |
| Storage.SendChunksCount | src/banco_dados/gerenciador_banco_dados.py:257 | the count grows by the size of each accepted batch; for an upsert it reaches the total iff no row is refused; for a plain insert, iff the rows also repeat no stored or earlier key |
| Storage.SendChunksAppends | src/banco_dados/gerenciador_banco_dados.py:256 | when the rows fit, plain inserts append every row in order |
| Storage.RecordsOf | src/banco_dados/gerenciador_banco_dados.py:163-175 | a single record is a one-element list, and empty data is nothing |
| Storage.PlanInsert | src/banco_dados/gerenciador_banco_dados.py:163-214 | empty data, an unlisted table, or a first-record column the table lacks is refused; otherwise the columns come from the first record, each row is its record built with coercion, and upsert is chosen iff the definition contains `UNIQUE(` in any case |
| Storage.Refuses | src/banco_dados/gerenciador_banco_dados.py:200-214 | a plan with no columns, or an upsert whose only column is `id`, has every row refused, because its statement cannot be valid; otherwise the engine decides |
| Storage.ResentStuck | src/banco_dados/gerenciador_banco_dados.py:254-261 | in the loop as written, once a refused row is pending, no later flush adds to the count |
| Storage.InsertDataAsWritten | src/banco_dados/gerenciador_banco_dados.py:152-278 | a refused plan changes nothing and returns 0, and the count never exceeds the records |
| Storage.ResentNothingWritten | src/banco_dados/gerenciador_banco_dados.py:254-261 | if the first row is refused, the pending batch is never cleared, and nothing is written or counted |
| Storage.ResubmissionLosesLaterBatches | src/banco_dados/gerenciador_banco_dados.py:254-261 | for 1001 records with only the first refused, the code as written stores nothing and returns 0, and the corrected loop stores the last record and returns 1 |
| Storage.InsertData | src/banco_dados/gerenciador_banco_dados.py:152-278 | a refused plan changes nothing and returns 0, and the count never exceeds the records |
| Storage.InsertDataSendsChunks | src/banco_dados/gerenciador_banco_dados.py:217-261 | the corrected insert sends the rows as consecutive 1000-row chunks and stores the result |
| Storage.InsertDataCount | src/banco_dados/gerenciador_banco_dados.py:257-269 | for an upsert, the returned count equals the number of records iff no row is refused; for a plain insert, iff moreover no row repeats a stored or earlier unique key |
| Storage.InsertDataAppends | src/banco_dados/gerenciador_banco_dados.py:253-269 | a plain insert whose rows all fit appends every row to its table and leaves the other tables alone |
| Storage.InsertDataKeepsKeysDistinct | src/banco_dados/gerenciador_banco_dados.py:204-261 | whatever the records, a table whose unique keys were distinct still has distinct keys after the insert |
| Storage.DroppedRecovers | src/banco_dados/gerenciador_banco_dados.py:254-261 | with the failed batch dropped, a later good batch whose key is new is still written |
| GenericExport.FormatRow | src/exportadores/exportador_generico.py:305-334 | the copy has the same keys; fields without a format keep their value, and no field is added |
| GenericExport.ApplyFormatting | src/exportadores/exportador_generico.py:303-336 | one copy per row, in order, same keys; no or falsy format keeps the value; a date format applies the date rule |
| GenericExport.FormatField | src/exportadores/exportador_generico.py:306-334 | a falsy format keeps the value; a date format applies the date rule; a number format applies the number rule; other formats keep it |
| GenericExport.FormatDateValue | src/exportadores/exportador_generico.py:309-321 | two `-` parse as an ISO date to `DD/MM/YYYY`, or give the text on failure; otherwise two `/` give the zero-padded parts, or the text when a part is not an integer; with neither, the value is unchanged |
| GenericExport.PadSlashed | src/exportadores/exportador_generico.py:316-319 | succeeds iff all three parts read as integers |
| GenericExport.PadSlashedDigits | src/exportadores/exportador_generico.py:316-319 | digit parts are zero-padded to 2, 2 and 4 |
| GenericExport.PadSlashedPadded | src/exportadores/exportador_generico.py:316-319 | an already padded `DD/MM/YYYY` is unchanged |
| GenericExport.IsoBecomesDmy | src/exportadores/exportador_generico.py:312-314 | every ISO date becomes `DD/MM/YYYY` |
| GenericExport.IsoRoundTrip | src/exportadores/exportador_generico.py:312-314 | the output reads back as the same date |
| GenericExport.DmyIsFixed | src/exportadores/exportador_generico.py:316-319 | a `DD/MM/YYYY` date is unchanged |
| GenericExport.DateHintIdempotent | src/exportadores/exportador_generico.py:308-321 | applying the date rule twice to an ISO date gives the same as once |
| GenericExport.IsoExample | tests/test_exportador_generico.py:54-62 | `2025-06-09` becomes `09/06/2025` |
| GenericExport.BadMonthKept | src/exportadores/exportador_generico.py:320-321 | an ISO-shaped text with an impossible month is kept as text |
| GenericExport.NumberKept | src/exportadores/exportador_generico.py:312-321 | a non-negative integer, whose text has no `-` or `/`, is unchanged |
| Calendar.OrdinalOrder | src/utils/mapeador_campos_empresa.py:1491-1493 | day numbers order dates exactly as the calendar does, and equal numbers mean equal dates |
| Calendar.YearStep | src/utils/mapeador_campos_empresa.py:1493 | the days before the next year are the days before this one plus this year's length |
| Calendar.ParseFormatIso | src/utils/validador_dados.py:143 | reading back a date written `YYYY-MM-DD` gives the same date |
| Calendar.ParseFormatDmy | src/exportadores/exportador_generico.py:314 | reading back a date written `DD/MM/YYYY` with a four-digit year gives the same date |
| Calendar.MakeDate | src/utils/validador_dados.py:143 | a date is built iff all three fields read and form a real calendar date |
| Common.Strip | src/utils/mapeador_campos_empresa.py:1307 | the result is a slice of the input with no whitespace at either end, and it is empty exactly when the input is blank |
| Common.TakeUntil | src/exportadores/exportador_templates_empresa.py:2027-2028 | the longest prefix without the character, shorter than the input iff the character occurs |
| Common.SplitOn | src/exportadores/exportador_generico.py:317 | one more part than separators, none containing the separator |
| Common.SplitThree | src/exportadores/exportador_generico.py:317-318 | splitting three joined pieces gives them back |

## Left out

- XML parsing, the latin-1 retry, globbing and progress bars are left out. The model starts from a parsed `Elem` and treats parse failure as an absent tree.
- The per-layout extractors `_processar_s1020` … `_processar_s2299` and the `encontrar_elemento` family are left out. They are lookup tables over ElementTree searches, so handlers are a function parameter.
- The mapping tables (`_definir_mapeamentos`), `COLUNAS_TEMPLATES` and the schemas are left out. Mappings, columns, queries and tables are inputs.
- Floating point is left out: decimal formatting, `float()` conversions, REAL coercion and the number branch of `aplicar_formatacao` (`number` parameter), `formatar_numero_br` (`formatNumber` parameter), and amounts in `sanitizar_dados` (`toNumber` parameter).
- SQLite is abstract, so the following are not modelled:
  - connections, transactions and rollback on exceptions, and `:memory:`;
  - `EXPLAIN QUERY PLAN` (an EXPLAIN failure is folded into `execute`);
  - indexes, views and rowid/id assignment.
- Storage.Clash: a table has at most one unique key (`unique`), however it is declared (`UNIQUE(`, `UNIQUE (` or on a column). A plain insert that repeats it is refused, and only the `UNIQUE(` spelling selects the upsert. Other constraints (`NOT NULL`, `CHECK`, a second key) go through `rejects`, which depends only on the row.
- Storage.Coerce: `Json` has no floats, so `int()` is modelled only on text: a non-empty string, or the JSON text of a dict or list. Booleans are kept because Python counts them as integers. REAL columns are left out with floating point.
- The pandas/csv byte layer is left out: quoting, BOM, `fsync` and `verificar_completude_dados`. A file is its header plus rows of strings.
- The current time is a parameter: the year of `validar_data`.
- Unicode classes are approximated:
  - `\d` and `\D` are ASCII digits;
  - `str.isspace` is Python's exact set;
  - `\w` is exact up to U+00FF (ASCII and the Latin-1 letters and numerals), and above that it is the `wide` parameter;
  - `lower` and `upper` are ASCII only.
- The unreachable legacy exporter code is left out: `_gerar_dados_template_legado`, `_gerar_dados_*`, `_mapear_campos_*`, `_processar_json_*` and `_diagnosticar_dados`.
- GUI, CLI, logging, threading and configuration bootstrap are left out.
- FieldMapper.FormatValue: the `decimal` branch is the `decimal` parameter, and `datetime` with a `T` uses `fromisoformat`, which is the `fromIso` parameter.
- FieldMapper.ParseDataInput: `strptime`'s `%Y` is exactly four digits, `%m`, `%d`, `%H`, `%M` and `%S` take one or two digits, letters match case-insensitively, and a format's space matches any run of whitespace; all of this is modelled. The one difference is that Python's `\d` also matches non-ASCII Unicode decimal digits, which the model does not accept.
- Storage.SubstituteClears: a parameter name that itself contains `?` is not covered, because the `?` written by an earlier replacement could form its marker again.
- Storage.SendChunksAppends and Storage.InsertDataAppends: they require that the rows fit (`PlainFits`: no row refused by the engine and no repeated unique key), not only that the engine refuses none, because a plain insert of a stored key is refused by SQLite.
- GenericExport.FormatDateValue: `strftime` years below 1000 are written unpadded. The round-trip lemmas therefore require four-digit years.
- Layout.IdentifyIgnoresNamespace: requires that no tag already contains `}` and that the URI has no `}`. Python's `split('}')[1]` keeps only the text between the first and second `}`.
- Validation.SanitizeCleans: `\w` above U+00FF is the `wide` parameter, not Python's Unicode tables.
- Validation.ValidateS2200, Validation.ValidateS1020, Validation.ValidateS1030, Validation.ValidateS2299, Validation.Sanitize and Validation.SanitizeCleans: a record is `TextRecord`, a map from field name to text, while the source takes any Python values. Three behaviours are therefore not modelled. A number in a checked field makes `re.sub` or `re.match` raise `TypeError`, which the source does not catch. The sanitiser applies `str()` to an amount before `float()`, so a numeric amount is read from its Python text. A `None` field is skipped by the validators like `""`, but makes the sanitiser's `re.sub` raise.
- TemplateExport.ExportAll: a template that raises is modelled only for a failing query (`fetch` gives None). Other exceptions inside the writer are not.
- Dispatch.ProcessFile: logging, and the distinction between ParseError, UnicodeDecodeError and other exceptions, are left out. All of them become an absent tree.

## Findings

| source | as written | input that shows it | evidently intended | confidence | as-written member | corrected member |
|---|---|---|---|---|---|---|
| src/banco_dados/gerenciador_banco_dados.py:254-261 | when `executemany` fails, the pending batch `valores` is not cleared, so the failed rows are sent again with each later row | 1001 records, where the engine refuses only the first: every later send includes it and fails, so 0 rows are written and 0 is returned | a failed batch is dropped and the following batches are still written: 1 row written, 1 returned | not executed | Storage.InsertDataAsWritten | Storage.InsertData |
