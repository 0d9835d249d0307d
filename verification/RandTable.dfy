/** The table of randtable.c, in rows of sixteen. */
module RandTable {

  function Row0(k: nat): (r: int)
    ensures 50 <= r <= 999
  {
    match k
    case 0 => 619 case 1 => 720 case 2 => 127 case 3 => 481 case 4 => 931 case 5 => 816 case 6 => 813 case 7 => 233
    case 8 => 566 case 9 => 247 case 10 => 985 case 11 => 724 case 12 => 205 case 13 => 454 case 14 => 863 case _ => 491
  }

  function Row1(k: nat): (r: int)
    ensures 50 <= r <= 999
  {
    match k
    case 0 => 741 case 1 => 242 case 2 => 949 case 3 => 214 case 4 => 733 case 5 => 859 case 6 => 335 case 7 => 708
    case 8 => 621 case 9 => 574 case 10 => 73 case 11 => 654 case 12 => 730 case 13 => 472 case 14 => 419 case _ => 436
  }

  function Row2(k: nat): (r: int)
    ensures 50 <= r <= 999
  {
    match k
    case 0 => 278 case 1 => 496 case 2 => 867 case 3 => 210 case 4 => 399 case 5 => 680 case 6 => 480 case 7 => 51
    case 8 => 878 case 9 => 465 case 10 => 811 case 11 => 169 case 12 => 869 case 13 => 675 case 14 => 611 case _ => 697
  }

  function Row3(k: nat): (r: int)
    ensures 50 <= r <= 999
  {
    match k
    case 0 => 867 case 1 => 561 case 2 => 862 case 3 => 687 case 4 => 507 case 5 => 283 case 6 => 482 case 7 => 129
    case 8 => 807 case 9 => 591 case 10 => 733 case 11 => 623 case 12 => 150 case 13 => 238 case 14 => 59 case _ => 379
  }

  function Row4(k: nat): (r: int)
    ensures 50 <= r <= 999
  {
    match k
    case 0 => 684 case 1 => 877 case 2 => 625 case 3 => 169 case 4 => 643 case 5 => 105 case 6 => 170 case 7 => 607
    case 8 => 520 case 9 => 932 case 10 => 727 case 11 => 476 case 12 => 693 case 13 => 425 case 14 => 174 case _ => 647
  }

  function Row5(k: nat): (r: int)
    ensures 50 <= r <= 999
  {
    match k
    case 0 => 73 case 1 => 122 case 2 => 335 case 3 => 530 case 4 => 442 case 5 => 853 case 6 => 695 case 7 => 249
    case 8 => 445 case 9 => 515 case 10 => 909 case 11 => 545 case 12 => 703 case 13 => 919 case 14 => 874 case _ => 474
  }

  function Row6(k: nat): (r: int)
    ensures 50 <= r <= 999
  {
    match k
    case 0 => 882 case 1 => 500 case 2 => 594 case 3 => 612 case 4 => 641 case 5 => 801 case 6 => 220 case 7 => 162
    case 8 => 819 case 9 => 984 case 10 => 589 case 11 => 513 case 12 => 495 case 13 => 799 case 14 => 161 case _ => 604
  }

  function Row7(k: nat): (r: int)
    ensures 50 <= r <= 999
  {
    match k
    case 0 => 958 case 1 => 533 case 2 => 221 case 3 => 400 case 4 => 386 case 5 => 867 case 6 => 600 case 7 => 782
    case 8 => 382 case 9 => 596 case 10 => 414 case 11 => 171 case 12 => 516 case 13 => 375 case 14 => 682 case _ => 485
  }

  function Row8(k: nat): (r: int)
    ensures 50 <= r <= 999
  {
    match k
    case 0 => 911 case 1 => 276 case 2 => 98 case 3 => 553 case 4 => 163 case 5 => 354 case 6 => 666 case 7 => 933
    case 8 => 424 case 9 => 341 case 10 => 533 case 11 => 870 case 12 => 227 case 13 => 730 case 14 => 475 case _ => 186
  }

  function Row9(k: nat): (r: int)
    ensures 50 <= r <= 999
  {
    match k
    case 0 => 263 case 1 => 647 case 2 => 537 case 3 => 686 case 4 => 600 case 5 => 224 case 6 => 469 case 7 => 68
    case 8 => 770 case 9 => 919 case 10 => 190 case 11 => 373 case 12 => 294 case 13 => 822 case 14 => 808 case _ => 206
  }

  function Row10(k: nat): (r: int)
    ensures 50 <= r <= 999
  {
    match k
    case 0 => 184 case 1 => 943 case 2 => 795 case 3 => 384 case 4 => 383 case 5 => 461 case 6 => 404 case 7 => 758
    case 8 => 839 case 9 => 887 case 10 => 715 case 11 => 67 case 12 => 618 case 13 => 276 case 14 => 204 case _ => 918
  }

  function Row11(k: nat): (r: int)
    ensures 50 <= r <= 999
  {
    match k
    case 0 => 873 case 1 => 777 case 2 => 604 case 3 => 560 case 4 => 951 case 5 => 160 case 6 => 578 case 7 => 722
    case 8 => 79 case 9 => 804 case 10 => 96 case 11 => 409 case 12 => 713 case 13 => 940 case 14 => 652 case _ => 934
  }

  function Row12(k: nat): (r: int)
    ensures 50 <= r <= 999
  {
    match k
    case 0 => 970 case 1 => 447 case 2 => 318 case 3 => 353 case 4 => 859 case 5 => 672 case 6 => 112 case 7 => 785
    case 8 => 645 case 9 => 863 case 10 => 803 case 11 => 350 case 12 => 139 case 13 => 93 case 14 => 354 case _ => 99
  }

  function Row13(k: nat): (r: int)
    ensures 50 <= r <= 999
  {
    match k
    case 0 => 820 case 1 => 908 case 2 => 609 case 3 => 772 case 4 => 154 case 5 => 274 case 6 => 580 case 7 => 184
    case 8 => 79 case 9 => 626 case 10 => 630 case 11 => 742 case 12 => 653 case 13 => 282 case 14 => 762 case _ => 623
  }

  function Row14(k: nat): (r: int)
    ensures 50 <= r <= 999
  {
    match k
    case 0 => 680 case 1 => 81 case 2 => 927 case 3 => 626 case 4 => 789 case 5 => 125 case 6 => 411 case 7 => 521
    case 8 => 938 case 9 => 300 case 10 => 821 case 11 => 78 case 12 => 343 case 13 => 175 case 14 => 128 case _ => 250
  }

  function Row15(k: nat): (r: int)
    ensures 50 <= r <= 999
  {
    match k
    case 0 => 170 case 1 => 774 case 2 => 972 case 3 => 275 case 4 => 999 case 5 => 639 case 6 => 495 case 7 => 78
    case 8 => 352 case 9 => 126 case 10 => 857 case 11 => 956 case 12 => 358 case 13 => 619 case 14 => 580 case _ => 124
  }

  function Row16(k: nat): (r: int)
    ensures 50 <= r <= 999
  {
    match k
    case 0 => 737 case 1 => 594 case 2 => 701 case 3 => 612 case 4 => 669 case 5 => 112 case 6 => 134 case 7 => 694
    case 8 => 363 case 9 => 992 case 10 => 809 case 11 => 743 case 12 => 168 case 13 => 974 case 14 => 944 case _ => 375
  }

  function Row17(k: nat): (r: int)
    ensures 50 <= r <= 999
  {
    match k
    case 0 => 748 case 1 => 52 case 2 => 600 case 3 => 747 case 4 => 642 case 5 => 182 case 6 => 862 case 7 => 81
    case 8 => 344 case 9 => 805 case 10 => 988 case 11 => 739 case 12 => 511 case 13 => 655 case 14 => 814 case _ => 334
  }

  function Row18(k: nat): (r: int)
    ensures 50 <= r <= 999
  {
    match k
    case 0 => 249 case 1 => 515 case 2 => 897 case 3 => 955 case 4 => 664 case 5 => 981 case 6 => 649 case 7 => 113
    case 8 => 974 case 9 => 459 case 10 => 893 case 11 => 228 case 12 => 433 case 13 => 837 case 14 => 553 case _ => 268
  }

  function Row19(k: nat): (r: int)
    ensures 50 <= r <= 999
  {
    match k
    case 0 => 926 case 1 => 240 case 2 => 102 case 3 => 654 case 4 => 459 case 5 => 51 case 6 => 686 case 7 => 754
    case 8 => 806 case 9 => 760 case 10 => 493 case 11 => 403 case 12 => 415 case 13 => 394 case 14 => 687 case _ => 700
  }

  function Row20(k: nat): (r: int)
    ensures 50 <= r <= 999
  {
    match k
    case 0 => 946 case 1 => 670 case 2 => 656 case 3 => 610 case 4 => 738 case 5 => 392 case 6 => 760 case 7 => 799
    case 8 => 887 case 9 => 653 case 10 => 978 case 11 => 321 case 12 => 576 case 13 => 617 case 14 => 626 case _ => 502
  }

  function Row21(k: nat): (r: int)
    ensures 50 <= r <= 999
  {
    match k
    case 0 => 894 case 1 => 679 case 2 => 243 case 3 => 440 case 4 => 680 case 5 => 879 case 6 => 194 case 7 => 572
    case 8 => 640 case 9 => 724 case 10 => 926 case 11 => 56 case 12 => 204 case 13 => 700 case 14 => 707 case _ => 151
  }

  function Row22(k: nat): (r: int)
    ensures 50 <= r <= 999
  {
    match k
    case 0 => 457 case 1 => 449 case 2 => 797 case 3 => 195 case 4 => 791 case 5 => 558 case 6 => 945 case 7 => 679
    case 8 => 297 case 9 => 59 case 10 => 87 case 11 => 824 case 12 => 713 case 13 => 663 case 14 => 412 case _ => 693
  }

  function Row23(k: nat): (r: int)
    ensures 50 <= r <= 999
  {
    match k
    case 0 => 342 case 1 => 606 case 2 => 134 case 3 => 108 case 4 => 571 case 5 => 364 case 6 => 631 case 7 => 212
    case 8 => 174 case 9 => 643 case 10 => 304 case 11 => 329 case 12 => 343 case 13 => 97 case 14 => 430 case _ => 751
  }

  function Row24(k: nat): (r: int)
    ensures 50 <= r <= 999
  {
    match k
    case 0 => 497 case 1 => 314 case 2 => 983 case 3 => 374 case 4 => 822 case 5 => 928 case 6 => 140 case 7 => 206
    case 8 => 73 case 9 => 263 case 10 => 980 case 11 => 736 case 12 => 876 case 13 => 478 case 14 => 430 case _ => 305
  }

  function Row25(k: nat): (r: int)
    ensures 50 <= r <= 999
  {
    match k
    case 0 => 170 case 1 => 514 case 2 => 364 case 3 => 692 case 4 => 829 case 5 => 82 case 6 => 855 case 7 => 953
    case 8 => 676 case 9 => 246 case 10 => 369 case 11 => 970 case 12 => 294 case 13 => 750 case 14 => 807 case _ => 827
  }

  function Row26(k: nat): (r: int)
    ensures 50 <= r <= 999
  {
    match k
    case 0 => 150 case 1 => 790 case 2 => 288 case 3 => 923 case 4 => 804 case 5 => 378 case 6 => 215 case 7 => 828
    case 8 => 592 case 9 => 281 case 10 => 565 case 11 => 555 case 12 => 710 case 13 => 82 case 14 => 896 case _ => 831
  }

  function Row27(k: nat): (r: int)
    ensures 50 <= r <= 999
  {
    match k
    case 0 => 547 case 1 => 261 case 2 => 524 case 3 => 462 case 4 => 293 case 5 => 465 case 6 => 502 case 7 => 56
    case 8 => 661 case 9 => 821 case 10 => 976 case 11 => 991 case 12 => 658 case 13 => 869 case 14 => 905 case _ => 758
  }

  function Row28(k: nat): (r: int)
    ensures 50 <= r <= 999
  {
    match k
    case 0 => 745 case 1 => 193 case 2 => 768 case 3 => 550 case 4 => 608 case 5 => 933 case 6 => 378 case 7 => 286
    case 8 => 215 case 9 => 979 case 10 => 792 case 11 => 961 case 12 => 61 case 13 => 688 case 14 => 793 case _ => 644
  }

  function Row29(k: nat): (r: int)
    ensures 50 <= r <= 999
  {
    match k
    case 0 => 986 case 1 => 403 case 2 => 106 case 3 => 366 case 4 => 905 case 5 => 644 case 6 => 372 case 7 => 567
    case 8 => 466 case 9 => 434 case 10 => 645 case 11 => 210 case 12 => 389 case 13 => 550 case 14 => 919 case _ => 135
  }

  function Row30(k: nat): (r: int)
    ensures 50 <= r <= 999
  {
    match k
    case 0 => 780 case 1 => 773 case 2 => 635 case 3 => 389 case 4 => 707 case 5 => 100 case 6 => 626 case 7 => 958
    case 8 => 165 case 9 => 504 case 10 => 920 case 11 => 176 case 12 => 193 case 13 => 713 case 14 => 857 case _ => 265
  }

  function Row31(k: nat): (r: int)
    ensures 50 <= r <= 999
  {
    match k
    case 0 => 203 case 1 => 50 case 2 => 668 case 3 => 108 case 4 => 645 case 5 => 990 case 6 => 626 case 7 => 197
    case 8 => 510 case 9 => 357 case 10 => 358 case 11 => 850 case 12 => 858 case 13 => 364 case 14 => 936 case _ => 638
  }

  /** BZ2_rNums */
  function RNum(i: nat): (r: int)
    requires i < 512
    ensures 50 <= r <= 999
  {
    match i / 16
    case 0 => Row0(i % 16) case 1 => Row1(i % 16) case 2 => Row2(i % 16) case 3 => Row3(i % 16)
    case 4 => Row4(i % 16) case 5 => Row5(i % 16) case 6 => Row6(i % 16) case 7 => Row7(i % 16)
    case 8 => Row8(i % 16) case 9 => Row9(i % 16) case 10 => Row10(i % 16) case 11 => Row11(i % 16)
    case 12 => Row12(i % 16) case 13 => Row13(i % 16) case 14 => Row14(i % 16) case 15 => Row15(i % 16)
    case 16 => Row16(i % 16) case 17 => Row17(i % 16) case 18 => Row18(i % 16) case 19 => Row19(i % 16)
    case 20 => Row20(i % 16) case 21 => Row21(i % 16) case 22 => Row22(i % 16) case 23 => Row23(i % 16)
    case 24 => Row24(i % 16) case 25 => Row25(i % 16) case 26 => Row26(i % 16) case 27 => Row27(i % 16)
    case 28 => Row28(i % 16) case 29 => Row29(i % 16) case 30 => Row30(i % 16) case _ => Row31(i % 16)
  }
}
